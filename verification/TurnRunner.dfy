// Runs one turn: whatever its steps do and however they end, the turn ends with one typed status.

module TurnRunner {
  import opened Basics
  import opened Events
  import opened TrailModel
  import opened Protocol
  import opened TurnTrail

  /** The awaited work of a turn, as the runner sees it: what is emitted, written and published, in
      order, how each write ends, and where an error or a cancellation is raised. `RunStep` is an
      `async with trail.run(step)` around its body; `Elsewhere` is another writer appending to the
      same turn in the meantime. */
  datatype Node =
    | Emit(event: Event, write: Write)
    | Say(text: string)
    | CallModel(call: Call, write: Write)
    | SetStatus(status: StepStatus)
    | SetLatency(ms: int)
    | RunStep(step: AgentStep, at: int, body: seq<Node>, measured: int, write: Write)
    | Report(step: AgentStep, status: StepStatus, at: int, latencyMs: int, events: seq<Event>, write: Write)
    | Elsewhere(events: seq<Event>)
    | Raise(failure: Failure)

  // ------------------------------------------------------------------ the tally of model calls

  function ChargedOf(c: Call): nat {
    if c.charged.Some? then c.charged.value else c.input + c.cached + c.output
  }

  datatype Meter = InputTokens | CachedTokens | OutputTokens | CostUnits | ChargedTokens

  function Amount(c: Call, m: Meter): nat {
    match m
    case InputTokens => c.input
    case CachedTokens => c.cached
    case OutputTokens => c.output
    case CostUnits => c.cost
    case ChargedTokens => ChargedOf(c)
  }

  function Total(calls: seq<Call>, m: Meter): nat {
    if |calls| == 0 then 0 else Total(calls[..|calls| - 1], m) + Amount(calls[|calls| - 1], m)
  }

  function UsageOf(calls: seq<Call>): Usage {
    Usage(Total(calls, InputTokens), Total(calls, CachedTokens), Total(calls, OutputTokens), Total(calls, CostUnits),
          Total(calls, ChargedTokens))
  }

  function ModelOf(c: Call): StepModel {
    StepModel(c.provider, c.model, c.prompt, c.fallbackFrom)
  }

  function ModelsOf(calls: seq<Call>): map<string, StepModel> {
    if calls == [] then map[]
    else ModelsOf(calls[..|calls| - 1])[calls[|calls| - 1].step := ModelOf(calls[|calls| - 1])]
  }

  function AddPrompt(prompts: seq<string>, c: Call): seq<string> {
    if c.prompt.Some? && c.prompt.value != "" && c.prompt.value !in prompts then prompts + [c.prompt.value] else prompts
  }

  function PromptsOf(calls: seq<Call>): seq<string> {
    if calls == [] then [] else AddPrompt(PromptsOf(calls[..|calls| - 1]), calls[|calls| - 1])
  }

  /** The last call made for a step. */
  function LastCall(calls: seq<Call>, step: string): Option<Call> {
    if calls == [] then None
    else if calls[|calls| - 1].step == step then Some(calls[|calls| - 1])
    else LastCall(calls[..|calls| - 1], step)
  }

  /** Each call adds its own tokens and cost to the usage, and to the charged tokens what the quota says it
      charged, or else every token it used. */
  lemma UsageOfOneMore(calls: seq<Call>, c: Call)
    ensures UsageOf([]) == Usage(0, 0, 0, 0, 0)
    ensures var u := UsageOf(calls);
      UsageOf(calls + [c]) ==
        Usage(u.input + c.input, u.cached + c.cached, u.output + c.output, u.cost + c.cost,
              u.charged + (if c.charged.None? then c.input + c.cached + c.output else c.charged.value))
  {
    assert (calls + [c])[..|calls|] == calls;
  }

  /** A step is listed when some call served it, with the model of its last call. */
  lemma {:induction false} ModelsAreLastCalls(calls: seq<Call>, step: string)
    ensures step in ModelsOf(calls) <==> LastCall(calls, step).Some?
    ensures step in ModelsOf(calls) ==>
      var c := LastCall(calls, step).value;
      ModelsOf(calls)[step] == StepModel(c.provider, c.model, c.prompt, c.fallbackFrom)
  {
    if calls != [] {
      ModelsAreLastCalls(calls[..|calls| - 1], step);
    }
  }

  /** The prompts are the non-empty ones the calls name, each listed once. */
  lemma {:induction false} PromptsAreDistinct(calls: seq<Call>, prompt: string)
    ensures forall i, j :: 0 <= i < j < |PromptsOf(calls)| ==> PromptsOf(calls)[i] != PromptsOf(calls)[j]
    ensures prompt in PromptsOf(calls) <==>
      prompt != "" && exists i :: 0 <= i < |calls| && calls[i].prompt == Some(prompt)
  {
    if calls != [] {
      var init, last := calls[..|calls| - 1], calls[|calls| - 1];
      PromptsAreDistinct(init, prompt);
      assert forall i :: 0 <= i < |init| ==> calls[i] == init[i];
      if last.prompt == Some(prompt) {
        assert calls[|calls| - 1].prompt == Some(prompt);
      } else {
        assert (exists i :: 0 <= i < |calls| && calls[i].prompt == Some(prompt)) ==>
          exists i :: 0 <= i < |init| && init[i].prompt == Some(prompt);
      }
    }
  }

  function CallsIn(events: seq<Event>): seq<Call> {
    if events == [] then []
    else
      var init, last := events[..|events| - 1], events[|events| - 1];
      if last.ModelCallEvent? then CallsIn(init) + [last.call] else CallsIn(init)
  }

  lemma {:induction false} CallsInConcat(a: seq<Event>, b: seq<Event>)
    ensures CallsIn(a + b) == CallsIn(a) + CallsIn(b)
  {
    if b == [] {
      assert a + b == a;
    } else {
      CallsInConcat(a, b[..|b| - 1]);
      assert (a + b)[..|a + b| - 1] == a + b[..|b| - 1];
    }
  }

  lemma {:induction false} TotalConcat(a: seq<Call>, b: seq<Call>, m: Meter)
    ensures Total(a + b, m) == Total(a, m) + Total(b, m)
  {
    if |b| == 0 {
      assert a + b == a;
    } else {
      TotalConcat(a, b[..|b| - 1], m);
      assert (a + b)[..|a + b| - 1] == a + b[..|b| - 1];
    }
  }

  predicate NoCalls(events: seq<Event>) {
    forall i :: 0 <= i < |events| ==> !events[i].ModelCallEvent?
  }

  lemma {:induction false} NoCallsIn(events: seq<Event>)
    requires NoCalls(events)
    ensures CallsIn(events) == []
  {
    if events != [] {
      NoCallsIn(events[..|events| - 1]);
    }
  }

  // ------------------------------------------------------------------ running the work

  datatype RunState = RunState(trail: TrailState, calls: seq<Call>)
  datatype Ran = Ran(state: RunState, failure: Option<Failure>)

  function OpenStart(t: TrailState): Option<StepStart> {
    if t.open.Some? then Some(StepStart(t.open.value.step, t.open.value.startedAt)) else None
  }

  function Exec(s: RunState, nodes: seq<Node>): (r: Ran)
    ensures OpenStart(r.state.trail) == OpenStart(s.trail)
    decreases nodes, 0
  {
    if nodes == [] then Ran(s, None)
    else
      var first := ExecNode(s, nodes[0]);
      if first.failure.Some? then first else Exec(first.state, nodes[1..])
  }

  /** One piece of work. Leaving a step closes it whether or not its body raised; a step started
      inside another is an error of the caller. */
  function ExecNode(s: RunState, node: Node): (r: Ran)
    ensures OpenStart(r.state.trail) == OpenStart(s.trail)
    decreases node, 1
  {
    var t := s.trail;
    match node
    case Emit(e, w) => Ran(s.(trail := Emitted(t, e, w)), EmitFailure(t, w))
    case Say(text) => Ran(s.(trail := t.(queue := t.queue + [Token(text)])), None)
    case CallModel(call, w) =>
      var u := Emitted(t, ModelCallEvent(call), w);
      if EmitFailure(t, w).Some? then Ran(s.(trail := u), EmitFailure(t, w))
      else Ran(RunState(u, s.calls + [call]), None)
    case SetStatus(status) =>
      if t.open.None? then Ran(s, None)
      else Ran(s.(trail := t.(open := Some(t.open.value.(status := status)))), None)
    case SetLatency(ms) =>
      if t.open.None? then Ran(s, None)
      else Ran(s.(trail := t.(open := Some(t.open.value.(latencyMs := Some(ms))))), None)
    case RunStep(step, at, body, measured, w) =>
      if t.open.Some? then Ran(s, Some(Crashed))
      else
        var inner := Exec(s.(trail := Entered(t, step, at)), body);
        var closed := Exited(inner.state.trail, inner.failure.Some?, measured, w);
        Ran(inner.state.(trail := closed), if w.Interrupted? then Some(Cancelled) else inner.failure)
    case Report(step, status, at, latencyMs, events, w) =>
      Ran(s.(trail := Reported(t, step, status, at, latencyMs, events, w)), WriteFailure(w))
    case Elsewhere(events) => Ran(s.(trail := AppendedElsewhere(t, events)), None)
    case Raise(failure) => Ran(s, Some(failure))
  }

  /** Only the trail writes step events, a reported batch carries no model call, and the other writer
      puts its calls on the ledger only. */
  predicate Clean(nodes: seq<Node>) {
    forall node :: node in nodes ==> CleanNode(node)
  }

  predicate CleanNode(node: Node) {
    match node
    case Emit(e, _) => !e.StepEvent? && !e.ModelCallEvent?
    case RunStep(_, _, body, _, _) => forall inner :: inner in body ==> CleanNode(inner)
    case Report(_, _, _, _, events, _) => NoSteps(events) && NoCalls(events)
    case Elsewhere(events) => NoCalls(events)
    case _ => true
  }

  function StoredCalls(t: TrailState): seq<Call> {
    CallsIn(Unnumbered(t.log))
  }

  function WaitingCalls(t: TrailState): seq<Call> {
    if t.open.Some? then CallsIn(t.open.value.events) else []
  }

  function LostCalls(t: TrailState): seq<Call> {
    CallsIn(t.lost)
  }

  ghost predicate InBalance(calls: seq<Call>, stored: seq<Call>, waiting: seq<Call>, lost: seq<Call>) {
    && (forall m :: Total(calls, m) == Total(stored, m) + Total(waiting, m) + Total(lost, m))
    && (lost == [] ==> calls == stored + waiting)
  }

  /** Every call the tally counted is stored, waits in the open step, or was lost with its batch; and
      while none is lost they are in the order they were made. */
  ghost predicate Accounted(s: RunState) {
    InBalance(s.calls, StoredCalls(s.trail), WaitingCalls(s.trail), LostCalls(s.trail))
  }

  lemma CallWaits(calls: seq<Call>, stored: seq<Call>, waiting: seq<Call>, lost: seq<Call>, call: Call)
    requires InBalance(calls, stored, waiting, lost)
    ensures InBalance(calls + [call], stored, waiting + [call], lost)
  {
    assert stored + (waiting + [call]) == (stored + waiting) + [call];
    forall m ensures Total(calls + [call], m) == Total(stored, m) + Total(waiting + [call], m) + Total(lost, m) {
      TotalSnoc(calls, call, m);
      TotalSnoc(waiting, call, m);
    }
  }

  lemma CallStored(calls: seq<Call>, stored: seq<Call>, lost: seq<Call>, call: Call)
    requires InBalance(calls, stored, [], lost)
    ensures InBalance(calls + [call], stored + [call], [], lost)
  {
    assert stored + [] == stored && (stored + [call]) + [] == stored + [call];
    forall m ensures Total(calls + [call], m) == Total(stored + [call], m) + Total([], m) + Total(lost, m) {
      TotalSnoc(calls, call, m);
      TotalSnoc(stored, call, m);
    }
  }

  lemma WaitingStored(calls: seq<Call>, stored: seq<Call>, waiting: seq<Call>, lost: seq<Call>)
    requires InBalance(calls, stored, waiting, lost)
    ensures InBalance(calls, stored + waiting, [], lost)
  {
    assert (stored + waiting) + [] == stored + waiting;
    forall m ensures Total(calls, m) == Total(stored + waiting, m) + Total([], m) + Total(lost, m) {
      TotalConcat(stored, waiting, m);
    }
  }

  lemma WaitingLost(calls: seq<Call>, stored: seq<Call>, waiting: seq<Call>, lost: seq<Call>)
    requires InBalance(calls, stored, waiting, lost)
    ensures InBalance(calls, stored, [], lost + waiting)
  {
    assert stored + [] == stored;
    forall m ensures Total(calls, m) == Total(stored, m) + Total([], m) + Total(lost + waiting, m) {
      TotalConcat(lost, waiting, m);
    }
    assert lost + waiting == [] ==> lost == [] && waiting == [];
  }

  lemma TotalSnoc(calls: seq<Call>, call: Call, m: Meter)
    ensures Total(calls + [call], m) == Total(calls, m) + Amount(call, m)
  {
    assert (calls + [call])[..|calls|] == calls;
  }

  lemma AppendedCalls(log: seq<StoredEvent>, events: seq<Event>)
    ensures CallsIn(Unnumbered(AppendEvents(log, events))) == CallsIn(Unnumbered(log)) + CallsIn(events)
  {
    assert Unnumbered(AppendEvents(log, events)) == Unnumbered(log) + events;
    CallsInConcat(Unnumbered(log), events);
  }

  lemma BatchedCalls(t: TrailState, batch: seq<Event>, w: Write)
    ensures var u := Batched(t, batch, w);
      && StoredCalls(u) == (if w.Stored? then StoredCalls(t) + CallsIn(batch) else StoredCalls(t))
      && LostCalls(u) == (if w.Stored? then LostCalls(t) else LostCalls(t) + CallsIn(batch))
      && u.open == t.open
  {
    AppendedCalls(t.log, batch);
    CallsInConcat(t.lost, batch);
  }

  /** The calls of one emitted event: it is stored at once or waits in the open step. */
  lemma EmittedCalls(t: TrailState, e: Event, w: Write)
    ensures var u, made := Emitted(t, e, w), if e.ModelCallEvent? then [e.call] else [];
      && LostCalls(u) == LostCalls(t)
      && StoredCalls(u) == (if t.open.None? && w.Stored? then StoredCalls(t) + made else StoredCalls(t))
      && WaitingCalls(u) == (if t.open.Some? then WaitingCalls(t) + made else WaitingCalls(t))
  {
    var one := [e];
    assert one[..0] == [];
    assert CallsIn(one) == if e.ModelCallEvent? then CallsIn(one[..0]) + [e.call] else CallsIn(one[..0]);
    if t.open.Some? {
      CallsInConcat(t.open.value.events, one);
    } else if w.Stored? {
      BatchedCalls(t, one, w);
    }
  }

  lemma EmitAccounted(s: RunState, e: Event, w: Write)
    requires Accounted(s)
    ensures !e.ModelCallEvent? ==> Accounted(s.(trail := Emitted(s.trail, e, w)))
    ensures e.ModelCallEvent? && EmitFailure(s.trail, w).None? ==>
      Accounted(RunState(Emitted(s.trail, e, w), s.calls + [e.call]))
    ensures e.ModelCallEvent? && EmitFailure(s.trail, w).Some? ==> Emitted(s.trail, e, w) == s.trail
  {
    var stored, waiting, lost := StoredCalls(s.trail), WaitingCalls(s.trail), LostCalls(s.trail);
    EmittedCalls(s.trail, e, w);
    if e.ModelCallEvent? && EmitFailure(s.trail, w).None? {
      if s.trail.open.Some? {
        CallWaits(s.calls, stored, waiting, lost, e.call);
      } else {
        CallStored(s.calls, stored, lost, e.call);
      }
    } else {
      assert stored + [] == stored && waiting + [] == waiting;
    }
  }

  /** Closing a step moves its calls from waiting to stored, or to lost with its batch. */
  lemma StepClosed(s: RunState, raised: bool, measured: int, w: Write)
    requires Accounted(s) && s.trail.open.Some?
    ensures Accounted(s.(trail := Exited(s.trail, raised, measured, w)))
  {
    var t := s.trail;
    var stored, waiting, lost := StoredCalls(t), WaitingCalls(t), LostCalls(t);
    var record := RecordOf(t.open.value, raised, measured);
    NoCallsIn([record]);
    CallsInConcat(t.open.value.events, [record]);
    assert waiting + [] == waiting;
    BatchedCalls(t.(open := None), t.open.value.events + [record], w);
    if w.Stored? {
      WaitingStored(s.calls, stored, waiting, lost);
    } else {
      WaitingLost(s.calls, stored, waiting, lost);
    }
  }

  lemma BatchWithoutCalls(s: RunState, queue: seq<StreamItem>, batch: seq<Event>, w: Write)
    requires Accounted(s) && NoCalls(batch)
    ensures Accounted(s.(trail := Batched(s.trail.(queue := queue), batch, w)))
  {
    NoCallsIn(batch);
    BatchedCalls(s.trail.(queue := queue), batch, w);
    assert StoredCalls(s.trail) + [] == StoredCalls(s.trail) && LostCalls(s.trail) + [] == LostCalls(s.trail);
  }

  /** Whatever the work does and however its writes end, the trail stays consistent and every model
      call stays accounted for. */
  lemma {:induction false} ExecKeeps(s: RunState, nodes: seq<Node>)
    requires Clean(nodes) && Consistent(s.trail) && Accounted(s)
    ensures Consistent(Exec(s, nodes).state.trail) && Accounted(Exec(s, nodes).state)
    decreases nodes, 0
  {
    if nodes != [] {
      ExecNodeKeeps(s, nodes[0]);
      var first := ExecNode(s, nodes[0]);
      if first.failure.None? {
        ExecKeeps(first.state, nodes[1..]);
      }
    }
  }

  /** Both invariants of a state. */
  ghost predicate Sound(s: RunState) {
    Consistent(s.trail) && Accounted(s)
  }

  lemma EmitIsSound(s: RunState, e: Event, w: Write)
    requires Sound(s) && CleanNode(Emit(e, w))
    ensures Sound(ExecNode(s, Emit(e, w)).state)
  {
    EmitKeeps(s.trail, e, w);
    EmitAccounted(s, e, w);
  }

  lemma SayIsSound(s: RunState, text: string)
    requires Sound(s)
    ensures Sound(ExecNode(s, Say(text)).state)
  {
    assert (s.trail.queue + [Token(text)])[..|s.trail.queue|] == s.trail.queue;
  }

  lemma CallIsSound(s: RunState, call: Call, w: Write)
    requires Sound(s)
    ensures Sound(ExecNode(s, CallModel(call, w)).state)
  {
    EmitKeeps(s.trail, ModelCallEvent(call), w);
    EmitAccounted(s, ModelCallEvent(call), w);
  }

  lemma ReportIsSound(s: RunState, step: AgentStep, status: StepStatus, at: int, latencyMs: int, events: seq<Event>,
                      w: Write)
    requires Sound(s) && NoSteps(events) && NoCalls(events)
    ensures Sound(ExecNode(s, Report(step, status, at, latencyMs, events, w)).state)
  {
    ReportKeeps(s.trail, step, status, at, latencyMs, events, w);
    BatchWithoutCalls(s, s.trail.queue + [StepStarted(step, at)],
                      events + [StepEvent(step, status, at, if latencyMs < 0 then 0 else latencyMs)], w);
  }

  lemma ElsewhereIsSound(s: RunState, events: seq<Event>)
    requires Sound(s) && NoCalls(events)
    ensures Sound(ExecNode(s, Elsewhere(events)).state)
  {
    ElsewhereKeeps(s.trail, events);
    NoCallsIn(events);
    AppendedCalls(s.trail.log, events);
    assert StoredCalls(s.trail) + [] == StoredCalls(s.trail);
  }

  lemma EnterIsSound(s: RunState, step: AgentStep, at: int)
    requires Sound(s) && s.trail.open.None?
    ensures Sound(s.(trail := Entered(s.trail, step, at)))
  {
    EnterKeeps(s.trail, step, at);
  }

  lemma ExitIsSound(s: RunState, raised: bool, measured: int, w: Write)
    requires Sound(s) && s.trail.open.Some?
    ensures Sound(s.(trail := Exited(s.trail, raised, measured, w)))
  {
    ExitKeeps(s.trail, raised, measured, w);
    StepClosed(s, raised, measured, w);
  }

  lemma SetIsSound(s: RunState, node: Node)
    requires Sound(s) && (node.SetStatus? || node.SetLatency? || node.Raise?)
    ensures Sound(ExecNode(s, node).state)
  {
  }

  lemma {:induction false} ExecNodeKeeps(s: RunState, node: Node)
    requires CleanNode(node) && Consistent(s.trail) && Accounted(s)
    ensures Consistent(ExecNode(s, node).state.trail) && Accounted(ExecNode(s, node).state)
    decreases node, 1
  {
    match node
    case Emit(e, w) => EmitIsSound(s, e, w);
    case Say(text) => SayIsSound(s, text);
    case CallModel(call, w) => CallIsSound(s, call, w);
    case SetStatus(_) => SetIsSound(s, node);
    case SetLatency(_) => SetIsSound(s, node);
    case RunStep(step, at, body, measured, w) =>
      if s.trail.open.None? {
        EnterIsSound(s, step, at);
        var entered := s.(trail := Entered(s.trail, step, at));
        ExecKeeps(entered, body);
        var inner := Exec(entered, body);
        ExitIsSound(inner.state, inner.failure.Some?, measured, w);
      }
    case Report(step, status, at, latencyMs, events, w) => ReportIsSound(s, step, status, at, latencyMs, events, w);
    case Elsewhere(events) => ElsewhereIsSound(s, events);
    case Raise(_) => SetIsSound(s, node);
  }

  /** A step's record: failed when its body failed, else what the body set; the time it started; the
      latency the body set, else the measured one. It is the last event of the step's one write, after the
      events its body emitted, and the body's failure goes on (a cancelled write's instead). */
  lemma StepRecordsItself(s: RunState, step: AgentStep, at: int, body: seq<Node>, measured: int, w: Write)
    requires s.trail.open.None?
    ensures var inner := Exec(s.(trail := Entered(s.trail, step, at)), body);
      var r := ExecNode(s, RunStep(step, at, body, measured, w));
      && inner.state.trail.open.Some?
      && var run := inner.state.trail.open.value;
      && var record := StepEvent(step, if inner.failure.Some? then Failed else run.status, at,
                                 if run.latencyMs.Some? then run.latencyMs.value else measured);
      && r.state.trail.log ==
           (if w.Stored? then AppendEvents(inner.state.trail.log, run.events + [record]) else inner.state.trail.log)
      && r.failure == (if w.Interrupted? then Some(Cancelled) else inner.failure)
      && r.state.trail.open.None?
  {
    var entered := s.(trail := Entered(s.trail, step, at));
    assert OpenStart(Exec(entered, body).state.trail) == Some(StepStart(step, at));
  }

  // ------------------------------------------------------------------ what the work may publish

  predicate MidItem(item: StreamItem) {
    item.Token? || item.StepStarted? || item.Recorded?
  }

  /** The later queue is the earlier one and then tokens, starts and recorded events. */
  predicate Extends(early: seq<StreamItem>, late: seq<StreamItem>) {
    early <= late && forall i :: |early| <= i < |late| ==> MidItem(late[i])
  }

  /** The texts the work writes, in order, when nothing stops it. */
  function Says(nodes: seq<Node>): seq<string>
    decreases nodes, 0
  {
    if nodes == [] then [] else NodeSays(nodes[0]) + Says(nodes[1..])
  }

  function NodeSays(node: Node): seq<string>
    decreases node, 1
  {
    match node
    case Say(text) => [text]
    case RunStep(_, _, body, _, _) => Says(body)
    case _ => []
  }

  lemma {:induction false} SaysConcat(a: seq<Node>, b: seq<Node>)
    ensures Says(a + b) == Says(a) + Says(b)
  {
    if a == [] {
      assert a + b == b;
    } else {
      assert (a + b)[1..] == a[1..] + b;
      SaysConcat(a[1..], b);
    }
  }

  lemma BatchExtends(t: TrailState, queue: seq<StreamItem>, batch: seq<Event>, w: Write)
    requires Extends(t.queue, queue) && TextsOf(queue) == TextsOf(t.queue)
    ensures var u := Batched(t.(queue := queue), batch, w);
      Extends(t.queue, u.queue) && TextsOf(u.queue) == TextsOf(t.queue)
  {
    QueueAfterWrite(t.(queue := queue), batch, w);
  }

  lemma ExitExtends(t: TrailState, raised: bool, measured: int, w: Write)
    requires t.open.Some?
    ensures var u := Exited(t, raised, measured, w); Extends(t.queue, u.queue) && TextsOf(u.queue) == TextsOf(t.queue)
  {
    var closed := t.(open := None);
    BatchExtends(closed, closed.queue, t.open.value.events + [RecordOf(t.open.value, raised, measured)], w);
  }

  /** What a piece of work does to the queue: it adds what work may publish, and, unless it fails, these texts. */
  predicate Wrote(early: TrailState, r: Ran, texts: seq<string>) {
    && Extends(early.queue, r.state.trail.queue)
    && (r.failure.None? ==> TextsOf(r.state.trail.queue) == TextsOf(early.queue) + texts)
  }

  lemma WroteInTurn(early: TrailState, first: Ran, r: Ran, one: seq<string>, more: seq<string>)
    requires Wrote(early, first, one) && first.failure.None? && Wrote(first.state.trail, r, more)
    ensures Wrote(early, r, one + more)
  {
  }

  lemma {:induction false} ExecExtends(s: RunState, nodes: seq<Node>)
    ensures Wrote(s.trail, Exec(s, nodes), Says(nodes))
    decreases nodes, 0
  {
    if nodes != [] {
      ExecNodeExtends(s, nodes[0]);
      var first := ExecNode(s, nodes[0]);
      if first.failure.None? {
        ExecExtends(first.state, nodes[1..]);
        WroteInTurn(s.trail, first, Exec(s, nodes), NodeSays(nodes[0]), Says(nodes[1..]));
      }
    }
  }

  lemma EmitWrites(s: RunState, e: Event, w: Write)
    ensures Extends(s.trail.queue, Emitted(s.trail, e, w).queue)
    ensures TextsOf(Emitted(s.trail, e, w).queue) == TextsOf(s.trail.queue)
  {
    BatchExtends(s.trail, s.trail.queue, [e], w);
  }

  lemma SayWrites(s: RunState, text: string)
    ensures Wrote(s.trail, ExecNode(s, Say(text)), [text])
  {
    assert (s.trail.queue + [Token(text)])[..|s.trail.queue|] == s.trail.queue;
  }

  lemma NothingWritten(s: RunState, node: Node)
    requires node.SetStatus? || node.SetLatency? || node.Elsewhere? || node.Raise?
    ensures Wrote(s.trail, ExecNode(s, node), [])
  {
    assert TextsOf(s.trail.queue) + [] == TextsOf(s.trail.queue);
  }

  lemma EnterExtends(t: TrailState, step: AgentStep, at: int)
    requires t.open.None?
    ensures var u := Entered(t, step, at); Extends(t.queue, u.queue) && TextsOf(u.queue) == TextsOf(t.queue)
  {
    StartSent(t, step, at);
  }

  lemma ReportExtends(t: TrailState, step: AgentStep, status: StepStatus, at: int, latencyMs: int, events: seq<Event>,
                      w: Write)
    ensures var u := Reported(t, step, status, at, latencyMs, events, w);
      Extends(t.queue, u.queue) && TextsOf(u.queue) == TextsOf(t.queue)
  {
    StartSent(t, step, at);
    BatchExtends(t, t.queue + [StepStarted(step, at)],
                 events + [StepEvent(step, status, at, if latencyMs < 0 then 0 else latencyMs)], w);
  }

  lemma ExtendsInTurn(a: seq<StreamItem>, b: seq<StreamItem>, c: seq<StreamItem>)
    requires Extends(a, b) && Extends(b, c)
    ensures Extends(a, c)
  {
    forall i | |a| <= i < |c| ensures MidItem(c[i]) {
      assert i < |b| ==> c[i] == b[i];
    }
  }

  lemma ExtendsOn(a: seq<StreamItem>, b: seq<StreamItem>, c: seq<StreamItem>, d: seq<StreamItem>)
    requires Extends(a, b) && Extends(b, c) && Extends(c, d)
    ensures Extends(a, d)
  {
    ExtendsInTurn(a, b, c);
    ExtendsInTurn(a, c, d);
  }

  lemma ClosedWrites(t: TrailState, inner: Ran, step: AgentStep, at: int, measured: int, w: Write, r: Ran,
                     texts: seq<string>)
    requires t.open.None? && Wrote(Entered(t, step, at), inner, texts) && inner.state.trail.open.Some?
    requires r.state.trail.queue == Exited(inner.state.trail, inner.failure.Some?, measured, w).queue
    requires inner.failure.Some? ==> r.failure.Some?
    ensures Wrote(t, r, texts)
  {
    EnterExtends(t, step, at);
    ExitExtends(inner.state.trail, inner.failure.Some?, measured, w);
    ExtendsOn(t.queue, Entered(t, step, at).queue, inner.state.trail.queue, r.state.trail.queue);
  }

  lemma StepWrites(s: RunState, step: AgentStep, at: int, body: seq<Node>, measured: int, w: Write)
    requires s.trail.open.None?
    requires Wrote(Entered(s.trail, step, at), Exec(s.(trail := Entered(s.trail, step, at)), body), Says(body))
    ensures Wrote(s.trail, ExecNode(s, RunStep(step, at, body, measured, w)), Says(body))
  {
    var inner := Exec(s.(trail := Entered(s.trail, step, at)), body);
    ClosedWrites(s.trail, inner, step, at, measured, w, ExecNode(s, RunStep(step, at, body, measured, w)), Says(body));
  }

  lemma ReportWrites(s: RunState, step: AgentStep, status: StepStatus, at: int, latencyMs: int, events: seq<Event>,
                     w: Write)
    ensures Wrote(s.trail, ExecNode(s, Report(step, status, at, latencyMs, events, w)), [])
  {
    ReportExtends(s.trail, step, status, at, latencyMs, events, w);
    assert TextsOf(s.trail.queue) + [] == TextsOf(s.trail.queue);
  }

  lemma {:induction false} ExecNodeExtends(s: RunState, node: Node)
    ensures Wrote(s.trail, ExecNode(s, node), NodeSays(node))
    decreases node, 1
  {
    match node
    case Emit(e, w) => EmitWrites(s, e, w);
    case Say(text) => SayWrites(s, text);
    case CallModel(call, w) => EmitWrites(s, ModelCallEvent(call), w);
    case SetStatus(_) => NothingWritten(s, node);
    case SetLatency(_) => NothingWritten(s, node);
    case RunStep(step, at, body, measured, w) =>
      if s.trail.open.None? {
        ExecExtends(s.(trail := Entered(s.trail, step, at)), body);
        StepWrites(s, step, at, body, measured, w);
      }
    case Report(step, status, at, latencyMs, events, w) => ReportWrites(s, step, status, at, latencyMs, events, w);
    case Elsewhere(_) => NothingWritten(s, node);
    case Raise(_) => NothingWritten(s, node);
  }

  // ------------------------------------------------------------------ work that keeps the discipline

  /** Every write is stored. */
  predicate AllStored(nodes: seq<Node>) {
    forall node :: node in nodes ==> NodeStored(node)
  }

  predicate NodeStored(node: Node) {
    match node
    case Emit(_, w) => w.Stored?
    case CallModel(_, w) => w.Stored?
    case RunStep(_, _, body, _, w) => w.Stored? && forall inner :: inner in body ==> NodeStored(inner)
    case Report(_, _, _, _, _, w) => w.Stored?
    case _ => true
  }

  /** `report` is called only between steps. */
  predicate ReportsBetweenSteps(nodes: seq<Node>, inside: bool) {
    forall node :: node in nodes ==> NodeReportsBetweenSteps(node, inside)
  }

  predicate NodeReportsBetweenSteps(node: Node, inside: bool) {
    match node
    case RunStep(_, _, body, _, _) => forall inner :: inner in body ==> NodeReportsBetweenSteps(inner, true)
    case Report(_, _, _, _, _, _) => !inside
    case _ => true
  }

  /** The turn's events are appended by nobody else meanwhile. */
  predicate Alone(nodes: seq<Node>) {
    forall node :: node in nodes ==> NodeAlone(node)
  }

  predicate NodeAlone(node: Node) {
    match node
    case RunStep(_, _, body, _, _) => forall inner :: inner in body ==> NodeAlone(inner)
    case Elsewhere(events) => events == []
    case _ => true
  }

  /** When every write is stored nothing is lost; when nobody else appends nothing is foreign. */
  lemma {:induction false} ExecLosesNothing(s: RunState, nodes: seq<Node>)
    ensures AllStored(nodes) ==> Exec(s, nodes).state.trail.lost == s.trail.lost
    ensures Alone(nodes) ==> Exec(s, nodes).state.trail.foreign == s.trail.foreign
    decreases nodes, 0
  {
    if nodes != [] {
      ExecNodeLosesNothing(s, nodes[0]);
      var first := ExecNode(s, nodes[0]);
      if first.failure.None? {
        ExecLosesNothing(first.state, nodes[1..]);
      }
    }
  }

  lemma {:induction false} ExecNodeLosesNothing(s: RunState, node: Node)
    ensures NodeStored(node) ==> ExecNode(s, node).state.trail.lost == s.trail.lost
    ensures NodeAlone(node) ==> ExecNode(s, node).state.trail.foreign == s.trail.foreign
    decreases node, 1
  {
    if node.RunStep? && s.trail.open.None? {
      ExecLosesNothing(s.(trail := Entered(s.trail, node.step, node.at)), node.body);
    }
  }

  /** Work whose writes are stored and whose reports come between steps keeps the stream inside a step
      exactly while one is open. */
  lemma {:induction false} ExecInStep(s: RunState, nodes: seq<Node>)
    requires Clean(nodes) && Consistent(s.trail) && Accounted(s)
    requires AllStored(nodes) && ReportsBetweenSteps(nodes, s.trail.open.Some?) && InStep(s.trail)
    ensures InStep(Exec(s, nodes).state.trail)
    decreases nodes, 0
  {
    if nodes != [] {
      ExecNodeInStep(s, nodes[0]);
      ExecNodeKeeps(s, nodes[0]);
      var first := ExecNode(s, nodes[0]);
      if first.failure.None? {
        ExecInStep(first.state, nodes[1..]);
      }
    }
  }

  lemma {:induction false} ExecNodeInStep(s: RunState, node: Node)
    requires CleanNode(node) && Consistent(s.trail) && Accounted(s)
    requires NodeStored(node) && NodeReportsBetweenSteps(node, s.trail.open.Some?) && InStep(s.trail)
    ensures InStep(ExecNode(s, node).state.trail)
    decreases node, 1
  {
    var t := s.trail;
    match node
    case Emit(e, w) => EmitInStep(t, e);
    case Say(text) =>
      assert (t.queue + [Token(text)])[..|t.queue|] == t.queue;
    case CallModel(call, w) => EmitInStep(t, ModelCallEvent(call));
    case SetStatus(_) =>
    case SetLatency(_) =>
    case RunStep(step, at, body, measured, w) =>
      if t.open.None? {
        EnterInStep(t, step, at);
        EnterKeeps(t, step, at);
        var entered := s.(trail := Entered(t, step, at));
        ExecInStep(entered, body);
        ExecKeeps(entered, body);
        ExitInStep(Exec(entered, body).state.trail, Exec(entered, body).failure.Some?, measured);
      }
    case Report(step, status, at, latencyMs, events, w) =>
      ReportInStep(t, step, status, at, latencyMs, events);
    case Elsewhere(_) =>
    case Raise(_) =>
  }
}
