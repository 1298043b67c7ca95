// Honest pacing for a live Trail: the shown rows walk towards the goal one change at a time, under a
// budget for the time a finished step is kept running so it can be read. Times are milliseconds.

module Pacing {
  import opened Basics
  import opened Events
  import opened TrailModel

  const STAGGER_MS := 40.0
  const STEP_DWELL_MS := 240.0
  const STEP_DWELL_BUDGET_MS := 400.0

  datatype ChangeKind = AddRow | FinishRow
  datatype Change = Change(index: nat, kind: ChangeKind)
  datatype Due = Due(change: Change, at: real)

  /** `timer` is when the armed timer fires; `since` is when each row was first shown. */
  datatype Pace = Pace(
    shown: seq<StepView>, goal: seq<StepView>, since: map<int, real>, budget: real, due: Option<Due>,
    timer: Option<real>)

  const NEW_PACE := Pace([], [], map[], STEP_DWELL_BUDGET_MS, None, None)

  // ------------------------------------------------------------------ the next change

  predicate Finishable(shown: seq<StepView>, target: seq<StepView>, i: int)
    requires 0 <= i < |shown| && i < |target|
  {
    shown[i].state == Running && target[i].state != Running
  }

  function NextFrom(shown: seq<StepView>, target: seq<StepView>, i: nat): Option<Change>
    decreases |target| - i
  {
    if i >= |target| then None
    else if i >= |shown| then Some(Change(i, AddRow))
    else if Finishable(shown, target, i) then Some(Change(i, FinishRow))
    else NextFrom(shown, target, i + 1)
  }

  function NextChange(shown: seq<StepView>, target: seq<StepView>): Option<Change> {
    NextFrom(shown, target, 0)
  }

  /** The next change is the finish of the first row that is over, or else the first missing row. */
  lemma {:induction false} NextFromMeaning(shown: seq<StepView>, target: seq<StepView>, i: nat)
    requires i <= |shown|
    ensures match NextFrom(shown, target, i)
      case None => |target| <= |shown| && forall j :: i <= j < |target| ==> !Finishable(shown, target, j)
      case Some(c) =>
        && i <= c.index < |target|
        && (c.kind == AddRow ==> c.index == |shown|)
        && (c.kind == FinishRow ==> c.index < |shown| && Finishable(shown, target, c.index))
        && (forall j :: i <= j < c.index ==> j < |shown| && !Finishable(shown, target, j))
    decreases |target| - i
  {
    if i < |target| && i < |shown| && !Finishable(shown, target, i) {
      NextFromMeaning(shown, target, i + 1);
    }
  }

  method ComputeNextChange(shown: seq<StepView>, target: seq<StepView>) returns (change: Option<Change>)
    ensures change == NextChange(shown, target)
  {
    for i := 0 to |target|
      invariant NextChange(shown, target) == NextFrom(shown, target, i)
    {
      if i >= |shown| {
        return Some(Change(i, AddRow));
      }
      if shown[i].state == Running && target[i].state != Running {
        return Some(Change(i, FinishRow));
      }
    }
    change := None;
  }

  // ------------------------------------------------------------------ one tick

  /** Rows already in the goal's state take the goal's content; the others stay. */
  function Refreshed(shown: seq<StepView>, goal: seq<StepView>): (r: seq<StepView>)
    ensures |r| == |shown|
    ensures forall i :: 0 <= i < |r| ==>
      r[i] == if i < |goal| && goal[i].state == shown[i].state then goal[i] else shown[i]
  {
    seq(|shown|, i requires 0 <= i < |shown| =>
      if i < |goal| && goal[i].state == shown[i].state then goal[i] else shown[i])
  }

  function Dwell(p: Pace, i: int, now: real): real {
    var since := if i in p.since then p.since[i] else now;
    var want := STEP_DWELL_MS - (now - since);
    if want > 0.0 then want else 0.0
  }

  function Smaller(a: real, b: real): real {
    if a < b then a else b
  }

  /** How long a change waits, and how much of that the budget pays. */
  function Wait(p: Pace, c: Change, now: real): (real, real) {
    if c.kind == FinishRow then
      var want := Dwell(p, c.index, now);
      if want > 0.0 then
        var paid := Smaller(want, p.budget);
        (if paid == 0.0 then STAGGER_MS else paid, paid)
      else (0.0, 0.0)
    else (if p.budget <= 0.0 && c.index > 0 then STAGGER_MS else 0.0, 0.0)
  }

  function Commit(p: Pace, c: Change, now: real): Pace
    requires c.index < |p.goal| && (if c.kind == AddRow then c.index == |p.shown| else c.index < |p.shown|)
  {
    var row := p.goal[c.index];
    if c.kind == AddRow then
      p.(shown := p.shown + [row.(state := Running, latencyMs := None)], since := p.since[c.index := now],
         timer := Some(now))
    else p.(shown := p.shown[c.index := row], timer := Some(now))
  }

  /** `tick`, at the time the timer has fired. */
  function Ticked(p: Pace, now: real): Pace {
    var q := p.(timer := None);
    match NextChange(p.shown, p.goal)
    case None => q.(due := None, shown := Refreshed(p.shown, p.goal))
    case Some(c) =>
      NextFromMeaning(p.shown, p.goal, 0);
      if p.due.Some? && p.due.value.change == c then
        if now < p.due.value.at then q.(timer := Some(p.due.value.at))
        else Commit(q.(due := None), c, now)
      else
        var (delay, paid) := Wait(p, c, now);
        var charged := q.(budget := p.budget - paid);
        if delay > 0.0 then charged.(due := Some(Due(c, now + delay)), timer := Some(now + delay))
        else Commit(charged, c, now)
  }

  function Updated(p: Pace, goal: seq<StepView>, now: real): Pace {
    p.(goal := goal, timer := if p.timer.Some? then p.timer else Some(now))
  }

  // ------------------------------------------------------------------ what every tick and update keeps

  /** No lost wake-up: with no timer armed a tick would change nothing. */
  predicate Awake(p: Pace) {
    p.timer.None? ==> NextChange(p.shown, p.goal).None? && Refreshed(p.shown, p.goal) == p.shown
  }

  /** The budget is within bounds, every shown row has its time, and a finish that waits will find its
      row shown long enough or the budget spent. */
  predicate Sane(p: Pace) {
    && 0.0 <= p.budget <= STEP_DWELL_BUDGET_MS
    && (forall i :: 0 <= i < |p.shown| ==> i in p.since)
    && (p.due.Some? && p.due.value.change.kind == FinishRow ==>
          var i := p.due.value.change.index;
          i < |p.shown| && (p.due.value.at >= p.since[i] + STEP_DWELL_MS || p.budget == 0.0))
  }

  lemma RefreshSettles(shown: seq<StepView>, goal: seq<StepView>)
    requires NextChange(shown, goal).None?
    ensures NextChange(Refreshed(shown, goal), goal).None?
    ensures Refreshed(Refreshed(shown, goal), goal) == Refreshed(shown, goal)
  {
    NextFromMeaning(shown, goal, 0);
    var r := Refreshed(shown, goal);
    forall j | 0 <= j < |goal| ensures !Finishable(r, goal, j) {
      assert !Finishable(shown, goal, j);
    }
    NextFromMeaning(r, goal, 0);
  }

  lemma TickKeepsAwake(p: Pace, now: real)
    ensures Awake(Ticked(p, now))
  {
    if NextChange(p.shown, p.goal).None? {
      RefreshSettles(p.shown, p.goal);
    }
  }

  lemma UpdateKeepsAwake(p: Pace, goal: seq<StepView>, now: real)
    ensures Awake(Updated(p, goal, now))
  {
  }

  lemma TickKeepsSane(p: Pace, now: real)
    requires Sane(p)
    ensures Sane(Ticked(p, now))
  {
    NextFromMeaning(p.shown, p.goal, 0);
  }

  /** The delay of a change that is made to wait: for a finish the dwell the budget pays for, and the
      stagger once it pays nothing; for an added row the stagger, and only then. */
  lemma TickCharges(p: Pace, now: real)
    requires Sane(p) && Ticked(p, now).due.Some? && Ticked(p, now).due != p.due
    ensures var q, due := Ticked(p, now), Ticked(p, now).due.value;
      && q.timer == Some(due.at) && q.shown == p.shown
      && (p.budget - q.budget > 0.0 ==> due.change.kind == FinishRow && due.at == now + (p.budget - q.budget))
      && (p.budget - q.budget <= 0.0 ==> p.budget == q.budget == 0.0 && due.at == now + STAGGER_MS)
  {
  }

  /** How the shown rows may move: at most one row is added, at the end and running; a row that has
      finished stays in its state for good. */
  predicate Progress(early: seq<StepView>, late: seq<StepView>) {
    && |early| <= |late| <= |early| + 1
    && (forall i :: 0 <= i < |early| && early[i].state != Running ==> late[i].state == early[i].state)
    && (|late| > |early| ==> late[|early|].state == Running)
  }

  lemma TickProgress(p: Pace, now: real)
    ensures Progress(p.shown, Ticked(p, now).shown)
    ensures |p.shown| <= |p.goal| ==> |Ticked(p, now).shown| <= |p.goal|
  {
    NextFromMeaning(p.shown, p.goal, 0);
  }

  /** Honesty: a row that this tick shows as finished has been shown running for the whole dwell, or
      there was no budget left to wait for it. */
  lemma FinishIsHonest(p: Pace, now: real, i: nat)
    requires Sane(p) && i < |p.shown| && p.shown[i].state == Running
    requires i < |Ticked(p, now).shown| && Ticked(p, now).shown[i].state != Running
    ensures now >= p.since[i] + STEP_DWELL_MS || Ticked(p, now).budget == 0.0
  {
    NextFromMeaning(p.shown, p.goal, 0);
  }

  /** The time a row is measured from is the time it was put on screen, running, once. */
  lemma ShownSince(p: Pace, now: real, i: nat)
    requires Sane(p) && i < |Ticked(p, now).shown|
    ensures i < |p.shown| ==> Ticked(p, now).since[i] == p.since[i]
    ensures i >= |p.shown| ==>
        i in Ticked(p, now).since && Ticked(p, now).since[i] == now && Ticked(p, now).shown[i].state == Running
  {
    NextFromMeaning(p.shown, p.goal, 0);
  }

  // ------------------------------------------------------------------ whole runs

  datatype Input = NewGoal(goal: seq<StepView>, at: real) | Fires(at: real)

  function Respond(p: Pace, input: Input): Pace {
    match input
    case NewGoal(goal, at) => Updated(p, goal, at)
    case Fires(at) => Ticked(p, at)
  }

  function RunPace(inputs: seq<Input>): Pace {
    if inputs == [] then NEW_PACE else Respond(RunPace(inputs[..|inputs| - 1]), inputs[|inputs| - 1])
  }

  /** In every reachable state, whatever the goals and whenever the timers fire: the budget is in
      0..400, no wake-up is lost and every pending finish is honest. */
  lemma {:induction false} EveryRunIsSane(inputs: seq<Input>)
    ensures Sane(RunPace(inputs)) && Awake(RunPace(inputs))
  {
    if inputs != [] {
      var p, last := RunPace(inputs[..|inputs| - 1]), inputs[|inputs| - 1];
      EveryRunIsSane(inputs[..|inputs| - 1]);
      match last
      case NewGoal(goal, at) => UpdateKeepsAwake(p, goal, at);
      case Fires(at) =>
        TickKeepsAwake(p, at);
        TickKeepsSane(p, at);
    } else {
      assert Refreshed([], []) == [];
    }
  }

  /** The waiting that dwells add to a run. */
  function DwellTotal(inputs: seq<Input>): real {
    if inputs == [] then 0.0
    else
      var p, last := RunPace(inputs[..|inputs| - 1]), inputs[|inputs| - 1];
      DwellTotal(inputs[..|inputs| - 1]) +
      (if last.Fires? && Ticked(p, last.at).due != p.due && Ticked(p, last.at).due.Some?
          && Ticked(p, last.at).due.value.change.kind == FinishRow && p.budget > 0.0
       then Ticked(p, last.at).due.value.at - last.at else 0.0)
  }

  /** Dwells delay a turn by at most 400 ms in all; the budget is what is left of that. */
  lemma {:induction false} DwellsAreCapped(inputs: seq<Input>)
    ensures DwellTotal(inputs) + RunPace(inputs).budget == STEP_DWELL_BUDGET_MS
    ensures 0.0 <= DwellTotal(inputs) <= STEP_DWELL_BUDGET_MS
  {
    EveryRunIsSane(inputs);
    if inputs != [] {
      var init, last := inputs[..|inputs| - 1], inputs[|inputs| - 1];
      DwellsAreCapped(init);
      EveryRunIsSane(init);
      if last.Fires? {
        DwellStep(RunPace(init), last.at);
      }
    }
  }

  lemma DwellStep(p: Pace, now: real)
    requires Sane(p)
    ensures var q := Ticked(p, now);
      p.budget - q.budget ==
        if q.due != p.due && q.due.Some? && q.due.value.change.kind == FinishRow && p.budget > 0.0
        then q.due.value.at - now else 0.0
  {
  }

  // ------------------------------------------------------------------ goals

  /** The goals the server's rows make: rows are only added, and a finished row stays in its state. */
  predicate Monotone(early: seq<StepView>, late: seq<StepView>) {
    && |early| <= |late|
    && forall i :: 0 <= i < |early| && early[i].state != Running ==> late[i].state == early[i].state
  }

  /** The goal can still be reached: nothing shown is missing from it or finished otherwise in it. */
  predicate Compatible(shown: seq<StepView>, goal: seq<StepView>) {
    Monotone(shown, goal)
  }

  lemma TickKeepsCompatible(p: Pace, now: real)
    ensures Compatible(p.shown, p.goal) <==> Compatible(Ticked(p, now).shown, Ticked(p, now).goal)
  {
    NextFromMeaning(p.shown, p.goal, 0);
    var q := Ticked(p, now);
    if Compatible(q.shown, q.goal) {
      forall i | 0 <= i < |p.shown| && p.shown[i].state != Running ensures p.goal[i].state == p.shown[i].state {
        assert q.shown[i].state == p.shown[i].state;
      }
    }
  }

  lemma UpdateKeepsCompatible(p: Pace, goal: seq<StepView>, now: real)
    requires Compatible(p.shown, p.goal) && Monotone(p.goal, goal)
    ensures Compatible(Updated(p, goal, now).shown, goal)
  {
  }

  // ------------------------------------------------------------------ catching up

  /** Rows of the goal that are over and not shown as over, among the first n. */
  function Unfinished(shown: seq<StepView>, goal: seq<StepView>, n: nat): nat
    requires n <= |goal|
  {
    if n == 0 then 0
    else Unfinished(shown, goal, n - 1) +
         (if goal[n - 1].state != Running && (n > |shown| || shown[n - 1].state == Running) then 1 else 0)
  }

  function Missing(shown: seq<StepView>, goal: seq<StepView>): nat {
    if |goal| > |shown| then |goal| - |shown| else 0
  }

  /** The changes still to be made: each missing row to add, each row that is over to finish. */
  function Outstanding(p: Pace): nat {
    Missing(p.shown, p.goal) + Unfinished(p.shown, p.goal, |p.goal|)
  }

  lemma {:induction false} AddedKeepsUnfinished(shown: seq<StepView>, goal: seq<StepView>, row: StepView, n: nat)
    requires n <= |goal| && row.state == Running
    ensures Unfinished(shown + [row], goal, n) == Unfinished(shown, goal, n)
  {
    if n > 0 {
      AddedKeepsUnfinished(shown, goal, row, n - 1);
    }
  }

  lemma {:induction false} FinishedLessUnfinished(shown: seq<StepView>, goal: seq<StepView>, i: nat, n: nat)
    requires n <= |goal| && i < |shown| && i < |goal| && Finishable(shown, goal, i)
    ensures Unfinished(shown[i := goal[i]], goal, n) == Unfinished(shown, goal, n) - (if i < n then 1 else 0)
  {
    if n > 0 {
      FinishedLessUnfinished(shown, goal, i, n - 1);
    }
  }

  lemma {:induction false} NothingUnfinished(shown: seq<StepView>, goal: seq<StepView>, n: nat)
    requires n <= |goal| && n <= |shown|
    requires forall j :: 0 <= j < n ==> !Finishable(shown, goal, j)
    ensures Unfinished(shown, goal, n) == 0
  {
    if n > 0 {
      NothingUnfinished(shown, goal, n - 1);
      assert !Finishable(shown, goal, n - 1);
    }
  }

  lemma {:induction false} SomethingUnfinished(shown: seq<StepView>, goal: seq<StepView>, i: nat, n: nat)
    requires i < n <= |goal| && i < |shown| && Finishable(shown, goal, i)
    ensures Unfinished(shown, goal, n) >= 1
  {
    if n > i + 1 {
      SomethingUnfinished(shown, goal, i, n - 1);
    }
  }

  /** A change that is committed is one fewer outstanding. */
  lemma CommitCounts(p: Pace, c: Change, now: real)
    requires NextChange(p.shown, p.goal) == Some(c)
    requires c.index < |p.goal| && (if c.kind == AddRow then c.index == |p.shown| else c.index < |p.shown|)
    ensures Outstanding(Commit(p, c, now)) == Outstanding(p) - 1 && Outstanding(p) >= 1
  {
    NextFromMeaning(p.shown, p.goal, 0);
    if c.kind == AddRow {
      AddedKeepsUnfinished(p.shown, p.goal, p.goal[c.index].(state := Running, latencyMs := None), |p.goal|);
    } else {
      FinishedLessUnfinished(p.shown, p.goal, c.index, |p.goal|);
      SomethingUnfinished(p.shown, p.goal, c.index, |p.goal|);
    }
  }

  predicate Waits(p: Pace) {
    p.due.Some? && NextChange(p.shown, p.goal) == Some(p.due.value.change)
  }

  /** How many ticks, at most, before the next commit. */
  function Phase(p: Pace): nat {
    if p.timer.None? then 0
    else if NextChange(p.shown, p.goal).None? then 1
    else if !Waits(p) then 3
    else if p.timer.value < p.due.value.at then 2
    else 1
  }

  lemma OnTimeTickDecreases(p: Pace)
    requires p.timer.Some?
    ensures var q := Ticked(p, p.timer.value);
      Outstanding(q) < Outstanding(p) || (Outstanding(q) == Outstanding(p) && Phase(q) < Phase(p))
  {
    var now := p.timer.value;
    var q := Ticked(p, now);
    NextFromMeaning(p.shown, p.goal, 0);
    match NextChange(p.shown, p.goal)
    case None =>
      NothingUnfinished(p.shown, p.goal, |p.goal|);
      RefreshSettles(p.shown, p.goal);
      NextFromMeaning(q.shown, q.goal, 0);
      NothingUnfinished(q.shown, q.goal, |p.goal|);
    case Some(c) =>
      if q.shown != p.shown {
        CommitCounts(p.(timer := None), c, now);
        CommitCounts(p.(timer := None, due := None), c, now);
      } else {
        CommitChanges(p, c, now);
      }
  }

  /** A tick that leaves the rows as they are has armed the timer for the time its change is due. */
  lemma CommitChanges(p: Pace, c: Change, now: real)
    requires NextChange(p.shown, p.goal) == Some(c) && Ticked(p, now).shown == p.shown
    ensures var q := Ticked(p, now); Waits(q) && q.timer == Some(q.due.value.at) && q.due.value.change == c
    ensures var q := Ticked(p, now); Waits(p) ==> q.due == p.due && now < p.due.value.at
  {
    NextFromMeaning(p.shown, p.goal, 0);
    if c.kind == FinishRow {
      assert Finishable(p.shown, p.goal, c.index);
    }
  }

  datatype Settled = Settled(pace: Pace, at: real)

  /** Timers that fire on time, with no new goal, until none is armed. */
  function Settle(p: Pace, clock: real): Settled
    decreases Outstanding(p), Phase(p)
  {
    if p.timer.None? then Settled(p, clock)
    else
      OnTimeTickDecreases(p);
      Settle(Ticked(p, p.timer.value), p.timer.value)
  }

  /** The latest time the last tick can fire: what is pending, what is left of the budget, and 40 ms
      for each change still to be made after the pending one. */
  function Deadline(p: Pace): real
    requires p.timer.Some?
  {
    var start := if p.due.Some? && p.due.value.at > p.timer.value then p.due.value.at else p.timer.value;
    var ahead := if Waits(p) then Outstanding(p) - 1 else Outstanding(p);
    start + p.budget + STAGGER_MS * (ahead as real)
  }

  lemma WaitingCounts(p: Pace)
    requires NextChange(p.shown, p.goal).Some?
    ensures Outstanding(p) >= 1
  {
    NextFromMeaning(p.shown, p.goal, 0);
    var c := NextChange(p.shown, p.goal).value;
    CommitCounts(p, c, 0.0);
  }

  lemma DeadlineOfAWait(p: Pace, c: Change)
    requires Sane(p) && p.timer.Some? && NextChange(p.shown, p.goal) == Some(c)
    requires Ticked(p, p.timer.value).shown == p.shown
    ensures p.timer.value <= Deadline(p)
    ensures var q := Ticked(p, p.timer.value); q.timer.Some? ==> Deadline(q) <= Deadline(p)
  {
    var now := p.timer.value;
    var q := Ticked(p, now);
    WaitingCounts(p);
    CommitChanges(p, c, now);
    WaitingCounts(q);
    assert Outstanding(q) == Outstanding(p);
    if !Waits(p) {
      WaitIsBounded(p, c, now);
    }
  }

  lemma DeadlineOfACommit(p: Pace, c: Change)
    requires Sane(p) && p.timer.Some? && NextChange(p.shown, p.goal) == Some(c)
    requires Ticked(p, p.timer.value).shown != p.shown
    ensures p.timer.value <= Deadline(p)
    ensures var q := Ticked(p, p.timer.value); q.timer.Some? ==> Deadline(q) <= Deadline(p)
  {
    var now := p.timer.value;
    NextFromMeaning(p.shown, p.goal, 0);
    WaitingCounts(p);
    CommitCounts(p.(timer := None), c, now);
    CommitCounts(p.(timer := None, due := None), c, now);
    assert Outstanding(Ticked(p, now)) == Outstanding(p) - 1;
  }

  lemma DeadlineHolds(p: Pace)
    requires Sane(p) && p.timer.Some?
    ensures p.timer.value <= Deadline(p)
    ensures var q := Ticked(p, p.timer.value); q.timer.Some? ==> Deadline(q) <= Deadline(p)
  {
    if NextChange(p.shown, p.goal).Some? {
      var c := NextChange(p.shown, p.goal).value;
      if Ticked(p, p.timer.value).shown == p.shown {
        DeadlineOfAWait(p, c);
      } else {
        DeadlineOfACommit(p, c);
      }
    }
  }

  lemma WaitIsBounded(p: Pace, c: Change, now: real)
    requires Sane(p)
    ensures Wait(p, c, now).0 <= Wait(p, c, now).1 + STAGGER_MS
    ensures Wait(p, c, now).1 > 0.0 ==> Wait(p, c, now).0 == Wait(p, c, now).1
    ensures 0.0 <= Wait(p, c, now).1 <= p.budget
  {
  }

  /** Catching up: for a fixed goal and timers that fire on time, the ticks come to an end by the
      deadline, awake and sane, with nothing left to change. */
  lemma {:induction false} SettlesInTime(p: Pace, clock: real)
    requires Sane(p) && Awake(p) && p.timer.Some?
    ensures var s := Settle(p, clock);
      && s.at <= Deadline(p) && s.pace.timer.None? && Awake(s.pace) && Sane(s.pace)
      && s.pace.goal == p.goal && (Compatible(s.pace.shown, p.goal) <==> Compatible(p.shown, p.goal))
    decreases Outstanding(p), Phase(p)
  {
    var q := Ticked(p, p.timer.value);
    OnTimeTickDecreases(p);
    DeadlineHolds(p);
    TickKeepsSane(p, p.timer.value);
    TickKeepsAwake(p, p.timer.value);
    TickKeepsCompatible(p, p.timer.value);
    if q.timer.Some? {
      SettlesInTime(q, p.timer.value);
    }
  }

  lemma RunSnoc(inputs: seq<Input>, input: Input)
    ensures RunPace(inputs + [input]) == Respond(RunPace(inputs), input)
  {
    assert (inputs + [input])[..|inputs|] == inputs;
  }

  function After(p: Pace, inputs: seq<Input>): Pace
    decreases |inputs|
  {
    if inputs == [] then p else After(Respond(p, inputs[0]), inputs[1..])
  }

  lemma {:induction false} RunAfter(inputs: seq<Input>, more: seq<Input>)
    ensures RunPace(inputs + more) == After(RunPace(inputs), more)
    decreases |more|
  {
    if more == [] {
      assert inputs + more == inputs;
    } else {
      RunSnoc(inputs, more[0]);
      RunAfter(inputs + [more[0]], more[1..]);
      assert inputs + more == (inputs + [more[0]]) + more[1..];
    }
  }

  /** Timers that fire on time, as inputs. */
  lemma {:induction false} SettleFires(p: Pace, clock: real) returns (fires: seq<Input>)
    ensures forall i :: 0 <= i < |fires| ==> fires[i].Fires?
    ensures After(p, fires) == Settle(p, clock).pace
    decreases Outstanding(p), Phase(p)
  {
    if p.timer.None? {
      fires := [];
    } else {
      OnTimeTickDecreases(p);
      var rest := SettleFires(Ticked(p, p.timer.value), p.timer.value);
      fires := [Fires(p.timer.value)] + rest;
      assert fires[1..] == rest;
    }
  }

  /** With no timer armed the shown rows are the goal exactly when they are compatible with it. */
  lemma AsleepMeansThere(p: Pace)
    requires Awake(p) && p.timer.None?
    ensures p.shown == p.goal <==> Compatible(p.shown, p.goal)
  {
    NextFromMeaning(p.shown, p.goal, 0);
    if Compatible(p.shown, p.goal) {
      forall i | 0 <= i < |p.goal| ensures p.shown[i] == p.goal[i] {
        assert !Finishable(p.shown, p.goal, i);
        assert Refreshed(p.shown, p.goal)[i] == p.shown[i];
      }
    }
  }

  /** The pacer ends at the goal exactly when the goal never took back a row or a finished state that
      is on screen. */
  lemma CatchesUpExactlyWhenCompatible(p: Pace, clock: real)
    requires Sane(p) && Awake(p) && p.timer.Some?
    ensures Settle(p, clock).pace.shown == p.goal <==> Compatible(p.shown, p.goal)
  {
    SettlesInTime(p, clock);
    AsleepMeansThere(Settle(p, clock).pace);
  }

  /** Goals that only grow. */
  predicate GoalsGrow(inputs: seq<Input>) {
    forall i, j :: 0 <= i < j < |inputs| && inputs[i].NewGoal? && inputs[j].NewGoal? ==>
      Monotone(inputs[i].goal, inputs[j].goal)
  }

  lemma {:induction false} GoalIsTheLast(inputs: seq<Input>)
    ensures RunPace(inputs).goal == [] ||
      exists i :: 0 <= i < |inputs| && inputs[i].NewGoal? && inputs[i].goal == RunPace(inputs).goal
    ensures inputs != [] && inputs[|inputs| - 1].NewGoal? ==> RunPace(inputs).goal == inputs[|inputs| - 1].goal
  {
    if inputs != [] {
      var n := |inputs| - 1;
      GoalIsTheLast(inputs[..n]);
      if inputs[n].NewGoal? {
        assert inputs[n].goal == RunPace(inputs).goal;
      } else if RunPace(inputs).goal != [] {
        var i :| 0 <= i < n && inputs[..n][i].NewGoal? && inputs[..n][i].goal == RunPace(inputs).goal;
        assert inputs[i].NewGoal?;
      }
    }
  }

  /** While goals only grow, every reachable state is compatible with its goal. */
  lemma {:induction false} GrowingGoalsStayCompatible(inputs: seq<Input>)
    requires GoalsGrow(inputs)
    ensures Compatible(RunPace(inputs).shown, RunPace(inputs).goal)
  {
    if inputs != [] {
      var n := |inputs| - 1;
      GrowingGoalsStayCompatible(inputs[..n]);
      var p := RunPace(inputs[..n]);
      match inputs[n]
      case NewGoal(goal, at) =>
        GoalIsTheLast(inputs[..n]);
        if p.goal != [] {
          var i :| 0 <= i < n && inputs[..n][i].NewGoal? && inputs[..n][i].goal == p.goal;
          assert inputs[i].NewGoal?;
        }
        UpdateKeepsCompatible(p, goal, at);
      case Fires(at) => TickKeepsCompatible(p, at);
    }
  }

  /** A turn's pacing: after any run whose goals only grow, with ticks at any times, timers that then
      fire on time bring the last goal to the screen by the deadline. */
  lemma RunCatchesUp(inputs: seq<Input>, clock: real)
    requires GoalsGrow(inputs) && RunPace(inputs).timer.Some?
    ensures Settle(RunPace(inputs), clock).pace.shown == RunPace(inputs).goal
    ensures Settle(RunPace(inputs), clock).at <= Deadline(RunPace(inputs))
  {
    EveryRunIsSane(inputs);
    GrowingGoalsStayCompatible(inputs);
    CatchesUpExactlyWhenCompatible(RunPace(inputs), clock);
    SettlesInTime(RunPace(inputs), clock);
  }

  // ------------------------------------------------------------------ the object

  class Pacer {
    var shown: seq<StepView>
    var goal: seq<StepView>
    var since: map<int, real>
    var budget: real
    var due: Option<Due>
    var timer: Option<real>

    ghost function View(): Pace
      reads this
    {
      Pace(shown, goal, since, budget, due, timer)
    }

    constructor ()
      ensures View() == NEW_PACE
    {
      shown, goal, since, budget, due, timer := [], [], map[], STEP_DWELL_BUDGET_MS, None, None;
    }

    method Update(rows: seq<StepView>, now: real)
      modifies this
      ensures View() == Updated(old(View()), rows, now)
    {
      goal := rows;
      if timer.None? {
        timer := Some(now);
      }
    }

    method Dispose()
      modifies this`timer
      ensures View() == old(View()).(timer := None)
    {
      timer := None;
    }

    method Schedule(now: real, ms: real)
      modifies this`timer
      ensures timer == Some(now + ms)
    {
      timer := Some(now + ms);
    }

    method Tick(now: real)
      modifies this
      ensures View() == Ticked(old(View()), now)
    {
      timer := None;
      var change := ComputeNextChange(shown, goal);
      NextFromMeaning(shown, goal, 0);
      if change.None? {
        due := None;
        var refreshed := Refreshed(shown, goal);
        if refreshed != shown {
          shown := refreshed;
        }
        return;
      }
      var c := change.value;
      if due.Some? && due.value.change == c {
        if now < due.value.at {
          Schedule(now, due.value.at - now);
          return;
        }
        due := None;
      } else {
        var delay := 0.0;
        if c.kind == FinishRow {
          var shownAt := if c.index in since then since[c.index] else now;
          var want := STEP_DWELL_MS - (now - shownAt);
          if want > 0.0 {
            delay := if want < budget then want else budget;
            budget := budget - delay;
            if delay == 0.0 {
              delay := STAGGER_MS;
            }
          }
        } else if budget <= 0.0 && c.index > 0 {
          delay := STAGGER_MS;
        }
        if delay > 0.0 {
          due := Some(Due(c, now + delay));
          Schedule(now, delay);
          return;
        }
      }
      var row := goal[c.index];
      if c.kind == AddRow {
        since := since[c.index := now];
        shown := shown + [row.(state := Running, latencyMs := None)];
      } else {
        shown := shown[c.index := row];
      }
      Schedule(now, 0.0);
    }
  }
}
