// The runner's Trail: each agent step is recorded with its events in one write, and every start and
// every stored event is published in the order it happened.

module TurnTrail {
  import opened Basics
  import opened Events
  import opened TrailModel
  import opened Protocol

  /** How one awaited write ends: stored, an error, or the task cancelled while it waited. A write is
      one transaction, so the last two store nothing. */
  datatype Write = Stored | Errored | Interrupted

  /** Why the code running a turn stopped early. */
  datatype Failure =
    | ProviderUnavailable(code: string, message: string)
    | ExtractionInvalid(code: string, message: string)
    | Cancelled
    | Crashed

  datatype StepRun = StepRun(
    step: AgentStep, startedAt: int, status: StepStatus, latencyMs: Option<int>, events: seq<Event>)

  /** Everything a trail can change: the turn's stored events, the turn's queue, the open step, the
      events of batches that could not be written, and how many of the stored events were appended
      to the same turn by somebody else (the worker that reads a saved link). */
  datatype TrailState = TrailState(
    log: seq<StoredEvent>, queue: seq<StreamItem>, open: Option<StepRun>, lost: seq<Event>, foreign: nat)

  /** Stored events are numbered from 1 in the order they are appended. */
  function AppendEvents(log: seq<StoredEvent>, events: seq<Event>): seq<StoredEvent> {
    log + NumberFrom(|log|, events)
  }

  function NumberFrom(n: nat, events: seq<Event>): (r: seq<StoredEvent>)
    ensures |r| == |events| && forall i :: 0 <= i < |r| ==> r[i] == StoredEvent(n + i + 1, events[i])
  {
    seq(|events|, i requires 0 <= i < |events| => StoredEvent(n + i + 1, events[i]))
  }

  function Published(stored: seq<StoredEvent>): (r: seq<StreamItem>)
    ensures |r| == |stored| && forall i :: 0 <= i < |r| ==> r[i] == Recorded(stored[i])
  {
    seq(|stored|, i requires 0 <= i < |stored| => Recorded(stored[i]))
  }

  /** Store a batch and publish it; a batch that is not stored is lost with everything in it. */
  function Batched(t: TrailState, events: seq<Event>, w: Write): TrailState {
    if w.Stored? then
      t.(log := AppendEvents(t.log, events), queue := t.queue + Published(NumberFrom(|t.log|, events)))
    else t.(lost := t.lost + events)
  }

  function WriteFailure(w: Write): Option<Failure> {
    match w
    case Stored => None
    case Errored => Some(Crashed)
    case Interrupted => Some(Cancelled)
  }

  /** Inside a step an event waits for the step to end. Outside, it is written at once; the caller is
      told of a write that failed, so nothing is lost in silence. */
  function Emitted(t: TrailState, e: Event, w: Write): TrailState {
    if t.open.Some? then t.(open := Some(t.open.value.(events := t.open.value.events + [e])))
    else if w.Stored? then Batched(t, [e], w)
    else t
  }

  function EmitFailure(t: TrailState, w: Write): Option<Failure> {
    if t.open.Some? then None else WriteFailure(w)
  }

  function Entered(t: TrailState, step: AgentStep, at: int): TrailState
    requires t.open.None?
  {
    t.(queue := t.queue + [StepStarted(step, at)], open := Some(StepRun(step, at, Done, None, [])))
  }

  /** The step's own event: failed when its body raised, with the measured latency unless the body
      set one. */
  function RecordOf(run: StepRun, raised: bool, measured: int): Event {
    StepEvent(run.step, if raised then Failed else run.status, run.startedAt,
              if run.latencyMs.Some? then run.latencyMs.value else measured)
  }

  function Exited(t: TrailState, raised: bool, measured: int, w: Write): TrailState
    requires t.open.Some?
  {
    Batched(t.(open := None), t.open.value.events + [RecordOf(t.open.value, raised, measured)], w)
  }

  function Reported(t: TrailState, step: AgentStep, status: StepStatus, at: int, latencyMs: int,
                    events: seq<Event>, w: Write): TrailState {
    Batched(t.(queue := t.queue + [StepStarted(step, at)]),
            events + [StepEvent(step, status, at, if latencyMs < 0 then 0 else latencyMs)], w)
  }

  function AppendedElsewhere(t: TrailState, events: seq<Event>): TrailState {
    t.(log := AppendEvents(t.log, events), foreign := t.foreign + |events|)
  }

  // ------------------------------------------------------------------ what every operation keeps

  function StepCount(events: seq<Event>): nat {
    |StepsIn(events)|
  }

  /** Stored events are numbered 1, 2, 3, ...; the published ones are an increasing choice of them,
      and all of them unless another writer appended some. */
  ghost predicate LogConsistent(t: TrailState) {
    && (forall i :: 0 <= i < |t.log| ==> t.log[i].number == i + 1)
    && Numbered(RecordedOf(t.queue))
    && (forall i :: 0 <= i < |RecordedOf(t.queue)| ==> RecordedOf(t.queue)[i] in t.log)
    && |t.log| == |RecordedOf(t.queue)| + t.foreign
    && (t.foreign == 0 ==> RecordedOf(t.queue) == t.log)
  }

  /** The starts sent are the steps recorded, the steps whose record was lost and the open one. */
  ghost predicate Balanced(t: TrailState) {
    |StartsOf(t.queue)| == StepCount(Unnumbered(RecordedOf(t.queue))) + StepCount(t.lost)
                           + (if t.open.Some? then 1 else 0)
  }

  /** What holds of a trail after any sequence of its operations, whatever failed. */
  ghost predicate Consistent(t: TrailState) {
    LogConsistent(t) && Balanced(t) && (t.open.Some? ==> NoSteps(t.open.value.events))
  }

  lemma {:induction false} PublishedProjections(stored: seq<StoredEvent>)
    ensures RecordedOf(Published(stored)) == stored && StartsOf(Published(stored)) == []
    ensures TextsOf(Published(stored)) == []
  {
    if stored != [] {
      var init := stored[..|stored| - 1];
      PublishedProjections(init);
      assert Published(stored)[..|stored| - 1] == Published(init);
    }
  }

  lemma {:induction false} StepsInConcat(a: seq<Event>, b: seq<Event>)
    ensures StepsIn(a + b) == StepsIn(a) + StepsIn(b)
  {
    if b == [] {
      assert a + b == a;
    } else {
      StepsInConcat(a, b[..|b| - 1]);
      assert (a + b)[..|a + b| - 1] == a + b[..|b| - 1];
    }
  }

  lemma {:induction false} NoStepsIn(events: seq<Event>)
    requires NoSteps(events)
    ensures StepsIn(events) == []
  {
    if events != [] {
      NoStepsIn(events[..|events| - 1]);
    }
  }

  /** A batch is some non-step events and at most one record after them. */
  lemma BatchSteps(events: seq<Event>, record: Event)
    requires NoSteps(events) && record.StepEvent?
    ensures StepsIn(events + [record]) == [record]
  {
    NoStepsIn(events);
    StepsInConcat(events, [record]);
    ReplaySnoc([], record);
    assert [] + [record] == [record];
  }

  lemma QueueAfterWrite(t: TrailState, events: seq<Event>, w: Write)
    ensures var u := Batched(t, events, w);
      && StartsOf(u.queue) == StartsOf(t.queue)
      && RecordedOf(u.queue) == RecordedOf(t.queue) + (if w.Stored? then NumberFrom(|t.log|, events) else [])
      && TextsOf(u.queue) == TextsOf(t.queue)
  {
    ProjectionsConcat(t.queue, Published(NumberFrom(|t.log|, events)));
    PublishedProjections(NumberFrom(|t.log|, events));
  }

  lemma WriteKeepsLog(t: TrailState, events: seq<Event>, w: Write)
    requires LogConsistent(t)
    ensures LogConsistent(Batched(t, events, w))
  {
    QueueAfterWrite(t, events, w);
    if w.Stored? {
      var more := NumberFrom(|t.log|, events);
      var was := RecordedOf(t.queue);
      forall i | 0 <= i < |was| ensures was[i].number <= |t.log| {
        var j :| 0 <= j < |t.log| && t.log[j] == was[i];
      }
      forall i | 0 <= i < |was + more| ensures (was + more)[i] in t.log + more {
        if i >= |was| { assert (was + more)[i] == (t.log + more)[|t.log| + (i - |was|)]; }
      }
    }
  }

  lemma StepCountAfterWrite(t: TrailState, events: seq<Event>, w: Write)
    ensures var u := Batched(t, events, w);
      StepCount(Unnumbered(RecordedOf(u.queue))) + StepCount(u.lost)
      == StepCount(Unnumbered(RecordedOf(t.queue))) + StepCount(t.lost) + StepCount(events)
  {
    QueueAfterWrite(t, events, w);
    if w.Stored? {
      assert Unnumbered(RecordedOf(t.queue) + NumberFrom(|t.log|, events)) == Unnumbered(RecordedOf(t.queue)) + events;
      StepsInConcat(Unnumbered(RecordedOf(t.queue)), events);
    } else {
      assert RecordedOf(t.queue) + [] == RecordedOf(t.queue);
      StepsInConcat(t.lost, events);
    }
  }

  lemma EmitKeeps(t: TrailState, e: Event, w: Write)
    requires Consistent(t) && !e.StepEvent?
    ensures Consistent(Emitted(t, e, w))
  {
    if t.open.None? && w.Stored? {
      WriteKeepsLog(t, [e], w);
      StepCountAfterWrite(t, [e], w);
      QueueAfterWrite(t, [e], w);
      NoStepsIn([e]);
    }
  }

  lemma StartSent(t: TrailState, step: AgentStep, at: int)
    ensures var q := t.queue + [StepStarted(step, at)];
      && StartsOf(q) == StartsOf(t.queue) + [StepStart(step, at)]
      && RecordedOf(q) == RecordedOf(t.queue) && TextsOf(q) == TextsOf(t.queue)
  {
    assert (t.queue + [StepStarted(step, at)])[..|t.queue|] == t.queue;
  }

  lemma EnterKeeps(t: TrailState, step: AgentStep, at: int)
    requires Consistent(t) && t.open.None?
    ensures Consistent(Entered(t, step, at))
  {
    StartSent(t, step, at);
  }

  lemma ExitKeeps(t: TrailState, raised: bool, measured: int, w: Write)
    requires Consistent(t) && t.open.Some?
    ensures Consistent(Exited(t, raised, measured, w)) && Exited(t, raised, measured, w).open.None?
  {
    var closed := t.(open := None);
    var batch := t.open.value.events + [RecordOf(t.open.value, raised, measured)];
    BatchSteps(t.open.value.events, RecordOf(t.open.value, raised, measured));
    WriteKeepsLog(closed, batch, w);
    StepCountAfterWrite(closed, batch, w);
    QueueAfterWrite(closed, batch, w);
  }

  lemma ReportKeeps(t: TrailState, step: AgentStep, status: StepStatus, at: int, latencyMs: int,
                    events: seq<Event>, w: Write)
    requires Consistent(t) && NoSteps(events)
    ensures Consistent(Reported(t, step, status, at, latencyMs, events, w))
  {
    var sent := t.(queue := t.queue + [StepStarted(step, at)]);
    var record := StepEvent(step, status, at, if latencyMs < 0 then 0 else latencyMs);
    StartSent(t, step, at);
    BatchSteps(events, record);
    WriteKeepsLog(sent, events + [record], w);
    StepCountAfterWrite(sent, events + [record], w);
    QueueAfterWrite(sent, events + [record], w);
  }

  lemma ElsewhereKeeps(t: TrailState, events: seq<Event>)
    requires Consistent(t)
    ensures Consistent(AppendedElsewhere(t, events))
  {
    var more := NumberFrom(|t.log|, events);
    assert |events| == 0 ==> t.log + more == t.log;
    forall i | 0 <= i < |RecordedOf(t.queue)| ensures RecordedOf(t.queue)[i] in t.log + more {
      assert RecordedOf(t.queue)[i] in t.log;
    }
  }

  // ------------------------------------------------------------------ the discipline of one open step

  /** The stream keeps its discipline and is inside a step exactly when the trail has one open. */
  predicate InStep(t: TrailState) {
    PhaseOf(t.queue) == (if t.open.Some? then Inside(StepStart(t.open.value.step, t.open.value.startedAt)) else Idle)
  }

  lemma {:induction false} PublishedPhase(p: Phase, stored: seq<StoredEvent>)
    requires NoSteps(Unnumbered(stored))
    ensures PhaseFrom(p, Published(stored)) == p
  {
    if stored != [] {
      var init, last := stored[..|stored| - 1], stored[|stored| - 1];
      assert Published(stored)[..|stored| - 1] == Published(init);
      forall i | 0 <= i < |init| ensures !Unnumbered(init)[i].StepEvent? {
        assert Unnumbered(stored)[i] == Unnumbered(init)[i];
      }
      assert Unnumbered(stored)[|stored| - 1] == last.event;
      PublishedPhase(p, init);
    }
  }

  /** Publishing a step's batch, its events and then its record, closes the step. */
  lemma BatchPhase(p: Phase, n: nat, events: seq<Event>, record: Event)
    requires NoSteps(events) && record.StepEvent?
    requires p == Inside(StepStart(record.step, record.startedAt))
    ensures PhaseFrom(p, Published(NumberFrom(n, events + [record]))) == Idle
  {
    var all := Published(NumberFrom(n, events + [record]));
    assert all[..|events|] == Published(NumberFrom(n, events));
    assert Unnumbered(NumberFrom(n, events)) == events;
    PublishedPhase(p, NumberFrom(n, events));
  }

  lemma EmitInStep(t: TrailState, e: Event)
    requires InStep(t) && !e.StepEvent?
    ensures InStep(Emitted(t, e, Stored))
  {
    if t.open.None? {
      var more := NumberFrom(|t.log|, [e]);
      assert Unnumbered(more) == [e];
      PublishedPhase(Idle, more);
      PhaseFromConcat(Idle, t.queue, Published(more));
    }
  }

  lemma EnterInStep(t: TrailState, step: AgentStep, at: int)
    requires InStep(t) && t.open.None?
    ensures InStep(Entered(t, step, at))
  {
    assert (t.queue + [StepStarted(step, at)])[..|t.queue|] == t.queue;
  }

  lemma ExitInStep(t: TrailState, raised: bool, measured: int)
    requires InStep(t) && t.open.Some? && NoSteps(t.open.value.events)
    ensures InStep(Exited(t, raised, measured, Stored))
  {
    var run := t.open.value;
    var batch := run.events + [RecordOf(run, raised, measured)];
    PhaseFromConcat(Idle, t.queue, Published(NumberFrom(|t.log|, batch)));
    BatchPhase(PhaseOf(t.queue), |t.log|, run.events, RecordOf(run, raised, measured));
  }

  lemma ReportInStep(t: TrailState, step: AgentStep, status: StepStatus, at: int, latencyMs: int, events: seq<Event>)
    requires InStep(t) && t.open.None? && NoSteps(events)
    ensures InStep(Reported(t, step, status, at, latencyMs, events, Stored))
  {
    var record := StepEvent(step, status, at, if latencyMs < 0 then 0 else latencyMs);
    var sent := t.queue + [StepStarted(step, at)];
    assert sent[..|t.queue|] == t.queue;
    assert PhaseOf(sent) == Inside(StepStart(step, at));
    PhaseFromConcat(Idle, sent, Published(NumberFrom(|t.log|, events + [record])));
    BatchPhase(PhaseOf(sent), |t.log|, events, record);
  }

  /** `report` breaks the discipline exactly when it is called inside an open step, which nothing in
      the trail forbids. */
  lemma ReportInsideStepBreaks(t: TrailState, step: AgentStep, status: StepStatus, at: int, latencyMs: int,
                               events: seq<Event>, w: Write)
    requires InStep(t) && NoSteps(events)
    ensures PhaseOf(Reported(t, step, status, at, latencyMs, events, w).queue).Broken? <==> t.open.Some?
  {
    var sent := t.queue + [StepStarted(step, at)];
    assert sent[..|t.queue|] == t.queue;
    var batch := events + [StepEvent(step, status, at, if latencyMs < 0 then 0 else latencyMs)];
    var more := Published(NumberFrom(|t.log|, batch));
    PhaseFromConcat(Idle, sent, more);
    if t.open.Some? {
      BrokenStaysBroken(more);
      assert PhaseOf(sent).Broken?;
      assert Reported(t, step, status, at, latencyMs, events, w).queue == (if w.Stored? then sent + more else sent);
    } else if w.Stored? {
      ReportInStep(t, step, status, at, latencyMs, events);
    }
  }

  // ------------------------------------------------------------------ the objects

  /** The turn's stored events and row. `foreign` counts what another writer appended. */
  class TurnStore {
    var log: seq<StoredEvent>
    var row: Turn
    ghost var foreign: nat

    constructor (row: Turn)
      ensures this.log == [] && this.row == row && this.foreign == 0
    {
      this.log, this.row, this.foreign := [], row, 0;
    }

    /** `append_many`: all of the events in one transaction, or none of them. */
    method AppendMany(events: seq<Event>, w: Write) returns (stored: seq<StoredEvent>)
      modifies this`log
      ensures log == if w.Stored? then AppendEvents(old(log), events) else old(log)
      ensures stored == if w.Stored? then NumberFrom(|old(log)|, events) else []
    {
      stored := [];
      if w.Stored? {
        for i := 0 to |events|
          invariant stored == NumberFrom(|old(log)|, events[..i])
          invariant log == old(log) + stored
        {
          var one := StoredEvent(|log| + 1, events[i]);
          log := log + [one];
          stored := stored + [one];
        }
        assert events[..|events|] == events;
      }
    }

    /** The worker that reads a saved link appends to the same turn without publishing. */
    method AppendElsewhere(events: seq<Event>)
      modifies this
      ensures log == AppendEvents(old(log), events) && foreign == old(foreign) + |events| && row == old(row)
    {
      var _ := AppendMany(events, Stored);
      foreign := foreign + |events|;
    }
  }

  class EventQueue {
    var items: seq<StreamItem>

    constructor ()
      ensures items == []
    {
      items := [];
    }

    method Put(item: StreamItem)
      modifies this
      ensures items == old(items) + [item]
    {
      items := items + [item];
    }
  }

  /** `TurnTrail`. The context manager `run` is its two halves, `Enter` and `Exit`. */
  class Trail {
    const store: TurnStore
    const queue: EventQueue
    var open: Option<StepRun>
    ghost var lost: seq<Event>

    ghost function View(): TrailState
      reads this, store, queue
    {
      TrailState(store.log, queue.items, open, lost, store.foreign)
    }

    constructor (store: TurnStore, queue: EventQueue)
      ensures this.store == store && this.queue == queue
      ensures View() == TrailState(store.log, queue.items, None, [], store.foreign)
    {
      this.store, this.queue, this.open, this.lost := store, queue, None, [];
    }

    /** `_write`: store the batch, then publish each stored event. */
    method WriteBatch(events: seq<Event>, w: Write) returns (failure: Option<Failure>)
      modifies store`log, queue
      ensures View() == (if w.Stored? then Batched(old(View()), events, w) else old(View()))
      ensures failure == WriteFailure(w)
    {
      var stored := store.AppendMany(events, w);
      for i := 0 to |stored|
        invariant queue.items == old(queue.items) + Published(stored[..i])
        invariant store.log == (if w.Stored? then AppendEvents(old(store.log), events) else old(store.log))
      {
        queue.Put(Recorded(stored[i]));
      }
      assert stored[..|stored|] == stored;
      assert old(queue.items) + [] == old(queue.items);
      failure := WriteFailure(w);
    }

    method Emit(e: Event, w: Write) returns (failure: Option<Failure>)
      modifies this, store`log, queue
      ensures View() == Emitted(old(View()), e, w) && failure == EmitFailure(old(View()), w)
    {
      if open.Some? {
        open := Some(open.value.(events := open.value.events + [e]));
        failure := None;
      } else {
        failure := WriteBatch([e], w);
      }
    }

    /** A step started inside another is refused before anything is sent. */
    method Enter(step: AgentStep, at: int) returns (failure: Option<Failure>)
      modifies this`open, queue
      ensures old(open).Some? ==> View() == old(View()) && failure == Some(Crashed)
      ensures old(open).None? ==> View() == Entered(old(View()), step, at) && failure == None
    {
      if open.Some? {
        return Some(Crashed);
      }
      queue.Put(StepStarted(step, at));
      open := Some(StepRun(step, at, Done, None, []));
      failure := None;
    }

    method SetStatus(status: StepStatus)
      modifies this`open
      ensures open == if old(open).Some? then Some(old(open).value.(status := status)) else None
    {
      if open.Some? { open := Some(open.value.(status := status)); }
    }

    method SetLatency(ms: int)
      modifies this`open
      ensures open == if old(open).Some? then Some(old(open).value.(latencyMs := Some(ms))) else None
    {
      if open.Some? { open := Some(open.value.(latencyMs := Some(ms))); }
    }

    /** Leaving a step: its events and its record in one write. An error of that write is swallowed,
        a cancellation is not. */
    method Exit(raised: bool, measured: int, w: Write) returns (failure: Option<Failure>)
      requires open.Some?
      modifies this, store`log, queue
      ensures View() == Exited(old(View()), raised, measured, w)
      ensures failure == if w.Interrupted? then Some(Cancelled) else None
    {
      var run := open.value;
      open := None;
      var batch := run.events + [RecordOf(run, raised, measured)];
      failure := WriteBatch(batch, w);
      if !w.Stored? { lost := lost + batch; }
      if w.Errored? { failure := None; }
    }

    method Report(step: AgentStep, status: StepStatus, at: int, latencyMs: int, events: seq<Event>, w: Write)
      returns (failure: Option<Failure>)
      modifies this`lost, store`log, queue
      ensures View() == Reported(old(View()), step, status, at, latencyMs, events, w)
      ensures failure == WriteFailure(w)
    {
      queue.Put(StepStarted(step, at));
      var batch := events + [StepEvent(step, status, at, if latencyMs < 0 then 0 else latencyMs)];
      failure := WriteBatch(batch, w);
      if !w.Stored? { lost := lost + batch; }
    }
  }
}
