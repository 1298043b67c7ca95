// What a turn's work records, read off the work itself: which events reach the log, in which order, which wait
// for their step and which are lost with it. Every run of the trail is held against this.

module WrittenEvents {
  import opened Basics
  import opened Events
  import opened TrailModel
  import opened Protocol
  import opened TurnTrail
  import opened TurnRunner
  import opened TurnLifecycle

  // ------------------------------------------------------------------ how work ends

  function WriteEnds(w: Write): Option<Failure> {
    match w
    case Stored => None
    case Errored => Some(Crashed)
    case Interrupted => Some(Cancelled)
  }

  /** The failure that ends the work; `inside` says whether it runs inside an open step. */
  function HowItEnds(nodes: seq<Node>, inside: bool): Option<Failure>
    decreases nodes, 0
  {
    if nodes == [] then None
    else if NodeEnds(nodes[0], inside).Some? then NodeEnds(nodes[0], inside)
    else HowItEnds(nodes[1..], inside)
  }

  /** An event that waits for its step cannot fail to be written; a step inside a step is refused; an
      error of a step's own write is swallowed, a cancellation is not. */
  function NodeEnds(node: Node, inside: bool): Option<Failure>
    decreases node, 1
  {
    match node
    case Emit(_, w) => if inside then None else WriteEnds(w)
    case CallModel(_, w) => if inside then None else WriteEnds(w)
    case RunStep(_, _, body, _, w) =>
      if inside then Some(Crashed) else if w.Interrupted? then Some(Cancelled) else HowItEnds(body, true)
    case Report(_, _, _, _, _, w) => WriteEnds(w)
    case Raise(failure) => Some(failure)
    case _ => None
  }

  // ------------------------------------------------------------------ what it records

  /** The status a step's body leaves, having begun with this one. */
  function StatusSet(body: seq<Node>, status: StepStatus): StepStatus {
    if body == [] then status
    else
      var next := if body[0].SetStatus? then body[0].status else status;
      if NodeEnds(body[0], true).Some? then next else StatusSet(body[1..], next)
  }

  function LatencySet(body: seq<Node>, latencyMs: Option<int>): Option<int> {
    if body == [] then latencyMs
    else
      var next := if body[0].SetLatency? then Some(body[0].ms) else latencyMs;
      if NodeEnds(body[0], true).Some? then next else LatencySet(body[1..], next)
  }

  /** The events that wait for the step this body belongs to. */
  function Waiting(body: seq<Node>): seq<Event> {
    if body == [] then []
    else NodeWaits(body[0]) + (if NodeEnds(body[0], true).Some? then [] else Waiting(body[1..]))
  }

  function NodeWaits(node: Node): seq<Event> {
    match node
    case Emit(e, _) => [e]
    case CallModel(call, _) => [ModelCallEvent(call)]
    case _ => []
  }

  /** One step's batch: what its body emitted, and then its record. */
  function StepBatch(step: AgentStep, at: int, body: seq<Node>, measured: int): seq<Event> {
    var latency := LatencySet(body, None);
    Waiting(body) + [StepEvent(step, if HowItEnds(body, true).Some? then Failed else StatusSet(body, Done), at,
                               if latency.Some? then latency.value else measured)]
  }

  function ReportBatch(step: AgentStep, status: StepStatus, at: int, latencyMs: int, events: seq<Event>): seq<Event> {
    events + [StepEvent(step, status, at, if latencyMs < 0 then 0 else latencyMs)]
  }

  /** What the work adds to the log. Inside a step emitted events wait; a report does not. */
  function Written(nodes: seq<Node>, inside: bool): seq<Event>
    decreases nodes, 0
  {
    if nodes == [] then []
    else NodeWritten(nodes[0], inside) + (if NodeEnds(nodes[0], inside).Some? then [] else Written(nodes[1..], inside))
  }

  function NodeWritten(node: Node, inside: bool): seq<Event>
    decreases node, 1
  {
    match node
    case Emit(e, w) => if !inside && w.Stored? then [e] else []
    case CallModel(call, w) => if !inside && w.Stored? then [ModelCallEvent(call)] else []
    case RunStep(step, at, body, measured, w) =>
      if inside then [] else Written(body, true) + (if w.Stored? then StepBatch(step, at, body, measured) else [])
    case Report(step, status, at, latencyMs, events, w) =>
      if w.Stored? then ReportBatch(step, status, at, latencyMs, events) else []
    case Elsewhere(events) => events
    case _ => []
  }

  /** What is lost: the batches whose write did not succeed. */
  function Lost(nodes: seq<Node>, inside: bool): seq<Event>
    decreases nodes, 0
  {
    if nodes == [] then []
    else NodeLost(nodes[0], inside) + (if NodeEnds(nodes[0], inside).Some? then [] else Lost(nodes[1..], inside))
  }

  function NodeLost(node: Node, inside: bool): seq<Event>
    decreases node, 1
  {
    match node
    case RunStep(step, at, body, measured, w) =>
      if inside then [] else Lost(body, true) + (if w.Stored? then [] else StepBatch(step, at, body, measured))
    case Report(step, status, at, latencyMs, events, w) =>
      if w.Stored? then [] else ReportBatch(step, status, at, latencyMs, events)
    case _ => []
  }

  // ------------------------------------------------------------------ every run records just that

  /** The log and what was lost have grown by these events. */
  predicate Recorded(early: TrailState, late: TrailState, written: seq<Event>, lost: seq<Event>) {
    Unnumbered(late.log) == Unnumbered(early.log) + written && late.lost == early.lost + lost
  }

  predicate StepGrew(early: Option<StepRun>, late: Option<StepRun>, waiting: seq<Event>, status: StepStatus,
                     latencyMs: Option<int>)
  {
    if early.None? then late.None?
    else late == Some(early.value.(events := early.value.events + waiting, status := status, latencyMs := latencyMs))
  }

  function StatusOf(open: Option<StepRun>): StepStatus {
    if open.Some? then open.value.status else Done
  }

  function LatencyOf(open: Option<StepRun>): Option<int> {
    if open.Some? then open.value.latencyMs else None
  }

  /** A run of this work from s. */
  predicate Keeps(s: RunState, nodes: seq<Node>, r: Ran) {
    var inside := s.trail.open.Some?;
    && r.failure == HowItEnds(nodes, inside)
    && Recorded(s.trail, r.state.trail, Written(nodes, inside), Lost(nodes, inside))
    && StepGrew(s.trail.open, r.state.trail.open, Waiting(nodes), StatusSet(nodes, StatusOf(s.trail.open)),
                LatencySet(nodes, LatencyOf(s.trail.open)))
  }

  predicate NodeKeeps(s: RunState, node: Node, r: Ran) {
    var inside := s.trail.open.Some?;
    && r.failure == NodeEnds(node, inside)
    && Recorded(s.trail, r.state.trail, NodeWritten(node, inside), NodeLost(node, inside))
    && StepGrew(s.trail.open, r.state.trail.open, NodeWaits(node),
                if node.SetStatus? then node.status else StatusOf(s.trail.open),
                if node.SetLatency? then Some(node.ms) else LatencyOf(s.trail.open))
  }

  lemma NothingRecorded(t: TrailState)
    ensures Recorded(t, t, [], [])
    ensures StepGrew(t.open, t.open, [], StatusOf(t.open), LatencyOf(t.open))
  {
    assert Unnumbered(t.log) + [] == Unnumbered(t.log) && t.lost + [] == t.lost;
    if t.open.Some? {
      assert t.open.value.events + [] == t.open.value.events;
    }
  }

  lemma RecordedInTurn(a: TrailState, b: TrailState, c: TrailState, w1: seq<Event>, w2: seq<Event>, l1: seq<Event>,
                       l2: seq<Event>)
    requires Recorded(a, b, w1, l1) && Recorded(b, c, w2, l2)
    ensures Recorded(a, c, w1 + w2, l1 + l2)
  {
    assert (Unnumbered(a.log) + w1) + w2 == Unnumbered(a.log) + (w1 + w2);
    assert (a.lost + l1) + l2 == a.lost + (l1 + l2);
  }

  lemma StepGrewInTurn(a: Option<StepRun>, b: Option<StepRun>, c: Option<StepRun>, e1: seq<Event>, e2: seq<Event>,
                       s1: StepStatus, s2: StepStatus, m1: Option<int>, m2: Option<int>)
    requires StepGrew(a, b, e1, s1, m1) && StepGrew(b, c, e2, s2, m2)
    ensures StepGrew(a, c, e1 + e2, s2, m2)
    ensures a.Some? ==> StatusOf(b) == s1 && LatencyOf(b) == m1
  {
    if a.Some? {
      assert (a.value.events + e1) + e2 == a.value.events + (e1 + e2);
    }
  }

  lemma BatchRecorded(t: TrailState, queue: seq<StreamItem>, batch: seq<Event>, w: Write)
    ensures Recorded(t, Batched(t.(queue := queue), batch, w), if w.Stored? then batch else [],
                     if w.Stored? then [] else batch)
  {
    NothingRecorded(t);
    assert Unnumbered(AppendEvents(t.log, batch)) == Unnumbered(t.log) + batch;
  }

  lemma EmitNodeKeeps(s: RunState, e: Event, w: Write)
    ensures var u := Emitted(s.trail, e, w); var inside := s.trail.open.Some?;
      && EmitFailure(s.trail, w) == (if inside then None else WriteEnds(w))
      && Recorded(s.trail, u, if !inside && w.Stored? then [e] else [], [])
      && StepGrew(s.trail.open, u.open, [e], StatusOf(s.trail.open), LatencyOf(s.trail.open))
  {
    NothingRecorded(s.trail);
    if s.trail.open.None? && w.Stored? {
      BatchRecorded(s.trail, s.trail.queue, [e], w);
    }
  }

  lemma ReportNodeKeeps(s: RunState, node: Node)
    requires node.Report?
    ensures NodeKeeps(s, node, ExecNode(s, node))
  {
    NothingRecorded(s.trail);
    BatchRecorded(s.trail, s.trail.queue + [StepStarted(node.step, node.at)],
                  ReportBatch(node.step, node.status, node.at, node.latencyMs, node.events), node.write);
  }

  lemma ElsewhereNodeKeeps(s: RunState, events: seq<Event>)
    ensures NodeKeeps(s, Elsewhere(events), ExecNode(s, Elsewhere(events)))
  {
    NothingRecorded(s.trail);
    assert Unnumbered(AppendEvents(s.trail.log, events)) == Unnumbered(s.trail.log) + events;
  }

  lemma PlainNodeKeeps(s: RunState, node: Node)
    requires node.Say? || node.SetStatus? || node.SetLatency? || node.Raise?
    ensures NodeKeeps(s, node, ExecNode(s, node))
  {
    NothingRecorded(s.trail);
  }

  /** A step that is entered, run and left. */
  lemma StepNodeKeeps(s: RunState, step: AgentStep, at: int, body: seq<Node>, measured: int, w: Write)
    requires s.trail.open.None?
    requires Keeps(s.(trail := Entered(s.trail, step, at)), body, Exec(s.(trail := Entered(s.trail, step, at)), body))
    ensures NodeKeeps(s, RunStep(step, at, body, measured, w), ExecNode(s, RunStep(step, at, body, measured, w)))
  {
    var inner := Exec(s.(trail := Entered(s.trail, step, at)), body);
    var t := inner.state.trail;
    var batch := StepBatch(step, at, body, measured);
    assert [] + Waiting(body) == Waiting(body);
    assert t.open.value.events + [RecordOf(t.open.value, inner.failure.Some?, measured)] == batch;
    BatchRecorded(t.(open := None), t.queue, batch, w);
    RecordedInTurn(s.trail, t, Exited(t, inner.failure.Some?, measured, w), Written(body, true),
                   if w.Stored? then batch else [], Lost(body, true), if w.Stored? then [] else batch);
  }

  lemma {:induction false} ExecNodeWrites(s: RunState, node: Node)
    ensures NodeKeeps(s, node, ExecNode(s, node))
    decreases node, 1
  {
    match node
    case Emit(e, w) => EmitNodeKeeps(s, e, w);
    case Say(_) => PlainNodeKeeps(s, node);
    case CallModel(call, w) => EmitNodeKeeps(s, ModelCallEvent(call), w);
    case SetStatus(_) => PlainNodeKeeps(s, node);
    case SetLatency(_) => PlainNodeKeeps(s, node);
    case RunStep(step, at, body, measured, w) =>
      if s.trail.open.None? {
        ExecWrites(s.(trail := Entered(s.trail, step, at)), body);
        StepNodeKeeps(s, step, at, body, measured, w);
      } else {
        NothingRecorded(s.trail);
      }
    case Report(_, _, _, _, _, _) => ReportNodeKeeps(s, node);
    case Elsewhere(events) => ElsewhereNodeKeeps(s, events);
    case Raise(_) => PlainNodeKeeps(s, node);
  }

  lemma OneMoreNode(s: RunState, nodes: seq<Node>, rest: Ran)
    requires nodes != [] && NodeKeeps(s, nodes[0], ExecNode(s, nodes[0])) && ExecNode(s, nodes[0]).failure.None?
    requires Keeps(ExecNode(s, nodes[0]).state, nodes[1..], rest)
    ensures Keeps(s, nodes, rest)
  {
    var first := ExecNode(s, nodes[0]).state;
    var inside := s.trail.open.Some?;
    RecordedInTurn(s.trail, first.trail, rest.state.trail, NodeWritten(nodes[0], inside), Written(nodes[1..], inside),
                   NodeLost(nodes[0], inside), Lost(nodes[1..], inside));
    StepGrewInTurn(s.trail.open, first.trail.open, rest.state.trail.open, NodeWaits(nodes[0]), Waiting(nodes[1..]),
                   if nodes[0].SetStatus? then nodes[0].status else StatusOf(s.trail.open),
                   StatusSet(nodes[1..], StatusOf(first.trail.open)),
                   if nodes[0].SetLatency? then Some(nodes[0].ms) else LatencyOf(s.trail.open),
                   LatencySet(nodes[1..], LatencyOf(first.trail.open)));
  }

  lemma LastNode(s: RunState, nodes: seq<Node>)
    requires nodes != [] && NodeKeeps(s, nodes[0], ExecNode(s, nodes[0])) && ExecNode(s, nodes[0]).failure.Some?
    ensures Keeps(s, nodes, Exec(s, nodes))
  {
    var inside := s.trail.open.Some?;
    assert NodeWritten(nodes[0], inside) + [] == NodeWritten(nodes[0], inside);
    assert NodeLost(nodes[0], inside) + [] == NodeLost(nodes[0], inside);
    assert NodeWaits(nodes[0]) + [] == NodeWaits(nodes[0]);
  }

  /** Nothing a turn's work says is dropped, invented or moved, whatever its steps do and however its
      writes end: the log grows by just what the program writes, the lost batches are just those whose
      write failed, the open step holds just what waits for it, and the work ends as the program says. */
  lemma {:induction false} ExecWrites(s: RunState, nodes: seq<Node>)
    ensures Keeps(s, nodes, Exec(s, nodes))
    decreases nodes, 0
  {
    if nodes == [] {
      NothingRecorded(s.trail);
    } else {
      ExecNodeWrites(s, nodes[0]);
      var first := ExecNode(s, nodes[0]);
      if first.failure.None? {
        ExecWrites(first.state, nodes[1..]);
        OneMoreNode(s, nodes, Exec(first.state, nodes[1..]));
      } else {
        LastNode(s, nodes);
      }
    }
  }

  // ------------------------------------------------------------------ the plain order

  /** The events a program emits, one node after the other: an event, a model call, a step's own events
      and then its record, a report's events and then its record. */
  function Emits(nodes: seq<Node>, inside: bool): seq<Event>
    decreases nodes, 0
  {
    if nodes == [] then []
    else NodeEmits(nodes[0], inside) + (if NodeEnds(nodes[0], inside).Some? then [] else Emits(nodes[1..], inside))
  }

  function NodeEmits(node: Node, inside: bool): seq<Event>
    decreases node, 1
  {
    match node
    case Emit(e, _) => [e]
    case CallModel(call, _) => [ModelCallEvent(call)]
    case RunStep(step, at, body, measured, _) =>
      if inside then []
      else
        var latency := LatencySet(body, None);
        Emits(body, true) + [StepEvent(step, if HowItEnds(body, true).Some? then Failed else StatusSet(body, Done), at,
                                       if latency.Some? then latency.value else measured)]
    case Report(step, status, at, latencyMs, events, _) =>
      events + [StepEvent(step, status, at, if latencyMs < 0 then 0 else latencyMs)]
    case _ => []
  }

  lemma {:induction false} BodyWaits(body: seq<Node>)
    requires Alone(body) && ReportsBetweenSteps(body, true)
    ensures Written(body, true) == [] && Waiting(body) == Emits(body, true)
  {
    if body != [] {
      assert body[0] in body;
      assert forall node :: node in body[1..] ==> node in body;
      BodyWaits(body[1..]);
    }
  }

  lemma StepInOrder(step: AgentStep, at: int, body: seq<Node>, measured: int)
    requires Alone(body) && ReportsBetweenSteps(body, true)
    ensures NodeWritten(RunStep(step, at, body, measured, Stored), false)
         == NodeEmits(RunStep(step, at, body, measured, Stored), false)
  {
    BodyWaits(body);
    assert [] + StepBatch(step, at, body, measured) == StepBatch(step, at, body, measured);
  }

  /** When writes are stored, nobody else writes and reports come between steps, that order is the log's,
      up to the failure that ends the work. */
  lemma {:induction false} WrittenInOrder(nodes: seq<Node>)
    requires AllStored(nodes) && Alone(nodes) && ReportsBetweenSteps(nodes, false)
    ensures Written(nodes, false) == Emits(nodes, false)
  {
    if nodes != [] {
      assert nodes[0] in nodes;
      assert forall node :: node in nodes[1..] ==> node in nodes;
      WrittenInOrder(nodes[1..]);
      if nodes[0].RunStep? {
        StepInOrder(nodes[0].step, nodes[0].at, nodes[0].body, nodes[0].measured);
      }
    }
  }

  // ------------------------------------------------------------------ a whole turn

  const SORRY := "Something went wrong on our side, and this turn was not saved."

  /** The error a turn ends with: its work's failure, or that it gave no answer. */
  function TurnError(ends: Option<Failure>, answer: Option<string>): Option<Event> {
    match ends
    case Some(ProviderUnavailable(code, message)) => Some(ErrorEvent(code, message))
    case Some(ExtractionInvalid(code, message)) => Some(ErrorEvent(code, message))
    case Some(Cancelled) => Some(ErrorEvent("cancelled", SORRY))
    case Some(Crashed) => Some(ErrorEvent("internal_error", SORRY))
    case None => if answer.None? then Some(ErrorEvent("internal_error", SORRY)) else None
  }

  lemma ErrorIs(ends: Option<Failure>, answer: Option<string>)
    ensures ErrorAfter(ends, answer) == TurnError(ends, answer)
  {
  }

  /** The log of a finished turn: what its work wrote, the error it ended with, the quota, each of the last
      two when its write is stored; and what was lost is what its work lost. */
  lemma TurnRecords(turn: Turn, nodes: seq<Node>, answer: Option<string>, c: Closing)
    ensures var e, error := RunTurn(turn, nodes, answer, c), TurnError(HowItEnds(nodes, false), answer);
      && Unnumbered(e.state.trail.log) ==
           Written(nodes, false)
           + (if error.Some? && c.errorWrite.Stored? then [error.value] else [])
           + (if !c.traceFails && c.quota.QuotaIs? && c.quota.write.Stored? then [QuotaEvent(c.quota.body)] else [])
      && e.state.trail.lost == Lost(nodes, false)
  {
    var ran := Exec(Begin(turn), nodes);
    ExecWrites(Begin(turn), nodes);
    ErrorIs(ran.failure, answer);
    assert [] + Written(nodes, false) == Written(nodes, false) && [] + Lost(nodes, false) == Lost(nodes, false);
    FailureIsRecorded(turn, nodes, answer, c);
    WorkQueue(turn, nodes);
    FinishQueue(ran.state, turn, answer, ErrorAfter(ran.failure, answer), c);
    Appended(ran.state.trail.log, FinishEvents(ErrorAfter(ran.failure, answer), c));
    Grouped(Written(nodes, false), ErrorAfter(ran.failure, answer), c);
  }

  lemma Appended(log: seq<StoredEvent>, events: seq<Event>)
    ensures Unnumbered(AppendEvents(log, events)) == Unnumbered(log) + events
  {
  }

  lemma Grouped(written: seq<Event>, error: Option<Event>, c: Closing)
    requires error.Some? ==> error.value.ErrorEvent?
    ensures written + FinishEvents(error, c) ==
      written + (if error.Some? && c.errorWrite.Stored? then [error.value] else [])
           + (if !c.traceFails && c.quota.QuotaIs? && c.quota.write.Stored? then [QuotaEvent(c.quota.body)] else [])
  {
  }

  /** What the finished row says: a turn whose work ends well and that answers is completed with its
      answer; otherwise it is failed with the code of its error, and when the row itself cannot be
      stored it is shown as an internal error and the stored row is as it was. */
  lemma TurnResult(turn: Turn, nodes: seq<Node>, answer: Option<string>, c: Closing)
    requires !c.traceFails
    ensures var e, error := RunTurn(turn, nodes, answer, c), TurnError(HowItEnds(nodes, false), answer);
      if !c.rowStored then
        e.row == turn && e.final.status == TurnFailed && e.final.errorCode == Some("internal_error")
      else
        && e.row == e.final && e.final.id == turn.id && e.final.input == turn.input
        && e.final.startedAt == turn.startedAt
        && e.final.status == (if error.None? then TurnCompleted else TurnFailed)
        && e.final.output == (if error.None? then answer else None)
        && e.final.errorCode == (if error.None? then None else Some(error.value.code))
  {
    ExecWrites(Begin(turn), nodes);
    ErrorIs(Exec(Begin(turn), nodes).failure, answer);
  }

  // ------------------------------------------------------------------ a turn the spend gate stopped

  lemma BlockedWrites(at: int, notice: string, reply: string, measured: int, w: Write)
    ensures var nodes := BlockedWork(at, notice, reply, measured, w);
      && Written(nodes, false) ==
           (if w.Stored? then [BlockedEvent(notice), StepEvent(Blocked, Refused, at, measured)] else [])
      && HowItEnds(nodes, false) == (if w.Interrupted? then Some(Cancelled) else None)
  {
    var nodes := BlockedWork(at, notice, reply, measured, w);
    var body := nodes[0].body;
    assert body[1..] == [Emit(BlockedEvent(notice), Stored)] && body[1..][1..] == [];
    assert Waiting(body[1..]) == NodeWaits(body[1]) + Waiting(body[1..][1..]) == [BlockedEvent(notice)];
    assert Waiting(body) == [] + Waiting(body[1..]);
    assert Written(body[1..], true) == NodeWritten(body[1], true) + Written(body[1..][1..], true) == [];
    assert Written(body, true) == NodeWritten(body[0], true) + Written(body[1..], true) == [];
    assert HowItEnds(body[1..], true) == None && HowItEnds(body, true) == None;
    assert StatusSet(body, Done) == StatusSet(body[1..], Refused) == Refused;
    assert LatencySet(body, None) == LatencySet(body[1..], None) == None;
    assert nodes[1..] == [Say(reply)] && nodes[1..][1..] == [];
    assert Written(nodes[1..], false) == [] && HowItEnds(nodes[1..], false) == None;
  }

  /** Its log: the notice and the refused step when the step is stored, and then, unless the task was
      cancelled there, the quota. */
  lemma BlockedTurnRecords(turn: Turn, at: int, notice: string, reply: string, measured: int, w: Write, c: Closing)
    ensures var step := if w.Stored? then [BlockedEvent(notice), StepEvent(Blocked, Refused, at, measured)] else [];
      match RunBlocked(turn, at, notice, reply, measured, w, c)
      case Abandoned(s) => Unnumbered(s.trail.log) == step
      case BlockedEnded(e) =>
        Unnumbered(e.state.trail.log) == step +
          (if !c.traceFails && c.quota.QuotaIs? && c.quota.write.Stored? then [QuotaEvent(c.quota.body)] else [])
  {
    var nodes := BlockedWork(at, notice, reply, measured, w);
    var ran := Exec(Begin(turn), nodes);
    ExecWrites(Begin(turn), nodes);
    BlockedWrites(at, notice, reply, measured, w);
    WorkQueue(turn, nodes);
    assert [] + Written(nodes, false) == Written(nodes, false);
    if ran.failure.None? {
      FinishLog(ran.state, turn, Some(reply), None, c);
      Appended(ran.state.trail.log, FinishEvents(None, c));
    }
  }
}
