// From a turn's start to its one terminal status, and the objects that carry it there.

module TurnLifecycle {
  import opened Basics
  import opened Events
  import opened TrailModel
  import opened Protocol
  import opened TurnTrail
  import opened TurnRunner

  const INTERNAL_ERROR := "Something went wrong on our side, and this turn was not saved."

  /** Reading the person's quota when the turn is over: not asked for, an error, or a value whose
      event is then written. */
  datatype QuotaRead = NoQuota | QuotaFails | QuotaIs(body: string, write: Write)

  /** How the calls `_finish` awaits end: the write of the error event, the trace backend's health,
      the turn row, the quota. */
  datatype Closing = Closing(errorWrite: Write, traceFails: bool, rowStored: bool, quota: QuotaRead)

  /** The task is not cancelled inside `_finish`. */
  predicate Uncancelled(c: Closing) {
    !c.errorWrite.Interrupted? && (c.quota.QuotaIs? ==> !c.quota.write.Interrupted?)
  }

  /** The stored row, and the turn the stream's terminal item carried. */
  datatype Ended = Ended(state: RunState, row: Turn, final: Turn)

  function ErrorOf(f: Failure): (e: Event)
    ensures e.ErrorEvent?
  {
    match f
    case ProviderUnavailable(code, message) => ErrorEvent(code, message)
    case ExtractionInvalid(code, message) => ErrorEvent(code, message)
    case Cancelled => ErrorEvent("cancelled", INTERNAL_ERROR)
    case Crashed => ErrorEvent("internal_error", INTERNAL_ERROR)
  }

  function Outcome(turn: Turn, calls: seq<Call>, answer: Option<string>, error: Option<Event>): Turn
    requires error.Some? ==> error.value.ErrorEvent?
  {
    turn.(status := if error.Some? then TurnFailed else TurnCompleted,
          output := if error.Some? then None else answer,
          errorCode := if error.Some? then Some(error.value.code) else None,
          usage := UsageOf(calls), models := ModelsOf(calls), prompts := PromptsOf(calls))
  }

  function Put(s: RunState, item: StreamItem): RunState {
    s.(trail := s.trail.(queue := s.trail.queue + [item]))
  }

  function EmitQuota(s: RunState, quota: QuotaRead): RunState {
    match quota
    case QuotaIs(body, w) => s.(trail := Emitted(s.trail, QuotaEvent(body), w))
    case _ => s
  }

  function Terminal(final: Turn): StreamItem {
    if final.status == TurnCompleted then Completed(final) else FailedTurn(final)
  }

  function TellError(s: RunState, error: Option<Event>, w: Write): RunState {
    if error.Some? then s.(trail := Emitted(s.trail, error.value, w)) else s
  }

  /** The turn as the terminal item shows it; a row that could not be stored is reported as a failure. */
  function FinalTurn(turn: Turn, calls: seq<Call>, answer: Option<string>, error: Option<Event>, c: Closing): Turn
    requires error.Some? ==> error.value.ErrorEvent?
  {
    if c.traceFails then turn
    else if c.rowStored then Outcome(turn, calls, answer, error)
    else turn.(status := TurnFailed, errorCode := Some("internal_error"))
  }

  function FinalRow(turn: Turn, calls: seq<Call>, answer: Option<string>, error: Option<Event>, c: Closing): Turn
    requires error.Some? ==> error.value.ErrorEvent?
  {
    if !c.traceFails && c.rowStored then Outcome(turn, calls, answer, error) else turn
  }

  /** What follows the error event: the quota event, one terminal item, the end marker. */
  function Closed(told: RunState, final: Turn, c: Closing): RunState {
    if c.traceFails then Put(told, EndOfStream)
    else Put(Put(EmitQuota(told, c.quota), Terminal(final)), EndOfStream)
  }

  /** `_finish`: the error event, the outcome, the quota event, one terminal item, the end marker. */
  function Finish(s: RunState, turn: Turn, answer: Option<string>, error: Option<Event>, c: Closing): Ended
    requires error.Some? ==> error.value.ErrorEvent?
  {
    var final := FinalTurn(turn, s.calls, answer, error, c);
    Ended(Closed(TellError(s, error, c.errorWrite), final, c), FinalRow(turn, s.calls, answer, error, c), final)
  }

  function Begin(turn: Turn): RunState {
    RunState(TrailState([], [Started(turn)], None, [], 0), [])
  }

  function ErrorAfter(failure: Option<Failure>, answer: Option<string>): (e: Option<Event>)
    ensures e.Some? ==> e.value.ErrorEvent?
    ensures e.Some? <==> failure.Some? || answer.None?
  {
    if failure.Some? then Some(ErrorOf(failure.value))
    else if answer.None? then Some(ErrorOf(Crashed))
    else None
  }

  /** `start` and `_run`: the work, then `_finish` with its answer or with the error that ended it. */
  function RunTurn(turn: Turn, nodes: seq<Node>, answer: Option<string>, c: Closing): Ended {
    var ran := Exec(Begin(turn), nodes);
    Finish(ran.state, turn, answer, ErrorAfter(ran.failure, answer), c)
  }

  /** A turn as `store.create` makes it. */
  predicate Created(turn: Turn) {
    turn.status == TurnRunning && turn.output.None?
  }

  // ------------------------------------------------------------------ the grammar of a turn's stream

  lemma BeginQueue(turn: Turn)
    ensures var q := Begin(turn).trail.queue;
      StartsOf(q) == [] && RecordedOf(q) == [] && TextsOf(q) == [] && PhaseOf(q) == Idle
  {
    var q := [Started(turn)];
    assert q[..0] == [];
    assert PhaseFrom(Idle, q) == Advance(PhaseFrom(Idle, q[..0]), q[0]);
  }

  lemma BeginKeeps(turn: Turn)
    ensures Consistent(Begin(turn).trail)
  {
    BeginQueue(turn);
    assert StepsIn(Unnumbered([])) == [];
  }

  lemma BeginAccounted(turn: Turn)
    ensures Accounted(Begin(turn))
  {
    assert StoredCalls(Begin(turn).trail) == [];
  }

  /** An item of the lifecycle (not a step's) leaves what a reader keeps as it was. */
  lemma PutPlain(queue: seq<StreamItem>, item: StreamItem)
    requires item.Completed? || item.FailedTurn? || item.EndOfStream?
    ensures var q := queue + [item];
      StartsOf(q) == StartsOf(queue) && RecordedOf(q) == RecordedOf(queue) && TextsOf(q) == TextsOf(queue)
      && PhaseOf(q) == PhaseOf(queue)
  {
    assert (queue + [item])[..|queue|] == queue;
  }

  lemma EmitExtends(t: TrailState, e: Event, w: Write)
    requires t.open.None?
    ensures var u := Emitted(t, e, w);
      Extends(t.queue, u.queue) && TextsOf(u.queue) == TextsOf(t.queue) && u.open.None?
      && u.lost == t.lost && u.foreign == t.foreign
  {
    BatchExtends(t, t.queue, [e], w);
  }

  /** Two states of a closed trail, the later one reached by emitting at most recorded events. */
  predicate Told(early: RunState, late: RunState) {
    && Extends(early.trail.queue, late.trail.queue) && TextsOf(late.trail.queue) == TextsOf(early.trail.queue)
    && late.trail.open.None? && late.trail.lost == early.trail.lost && late.trail.foreign == early.trail.foreign
    && late.calls == early.calls
  }

  lemma ErrorTold(s: RunState, error: Option<Event>, w: Write)
    requires s.trail.open.None?
    ensures Told(s, TellError(s, error, w))
  {
    if error.Some? {
      EmitExtends(s.trail, error.value, w);
    }
  }

  lemma QuotaTold(s: RunState, quota: QuotaRead)
    requires s.trail.open.None?
    ensures Told(s, EmitQuota(s, quota))
  {
    if quota.QuotaIs? {
      EmitExtends(s.trail, QuotaEvent(quota.body), quota.write);
    }
  }

  function Tail(final: Turn, c: Closing): seq<StreamItem> {
    if c.traceFails then [EndOfStream] else [Terminal(final), EndOfStream]
  }

  /** The later queue is the earlier one, then at most recorded events, then this tail. */
  predicate EndsWith(early: RunState, late: RunState, tail: seq<StreamItem>) {
    var q := late.trail.queue;
    && TextsOf(q) == TextsOf(early.trail.queue)
    && late.trail.open.None? && late.trail.lost == early.trail.lost && late.trail.foreign == early.trail.foreign
    && late.calls == early.calls
    && |q| >= |tail| && q[|q| - |tail|..] == tail && Extends(early.trail.queue, q[..|q| - |tail|])
  }

  lemma PutEnds(s: RunState, item: StreamItem)
    requires item.Completed? || item.FailedTurn? || item.EndOfStream?
    requires s.trail.open.None?
    ensures EndsWith(s, Put(s, item), [item]) && Put(s, item).trail.queue == s.trail.queue + [item]
  {
    PutPlain(s.trail.queue, item);
    assert (s.trail.queue + [item])[..|s.trail.queue|] == s.trail.queue;
  }

  lemma ToldThenEnds(a: RunState, b: RunState, d: RunState, tail: seq<StreamItem>)
    requires Told(a, b) && EndsWith(b, d, tail)
    ensures EndsWith(a, d, tail)
  {
    var q := d.trail.queue;
    var body := q[..|q| - |tail|];
    forall i | |a.trail.queue| <= i < |body| ensures MidItem(body[i]) {
      if i < |b.trail.queue| { assert body[i] == b.trail.queue[i]; }
    }
  }

  lemma TwoPutsEnd(s: RunState, final: Turn)
    requires s.trail.open.None?
    ensures EndsWith(s, Put(Put(s, Terminal(final)), EndOfStream), [Terminal(final), EndOfStream])
  {
    var one := Put(s, Terminal(final));
    PutEnds(s, Terminal(final));
    PutEnds(one, EndOfStream);
    assert Put(one, EndOfStream).trail.queue[..|s.trail.queue|] == s.trail.queue;
  }

  lemma ClosedEnds(told: RunState, final: Turn, c: Closing)
    requires told.trail.open.None?
    ensures EndsWith(told, Closed(told, final, c), Tail(final, c))
  {
    if c.traceFails {
      PutEnds(told, EndOfStream);
    } else {
      var quoted := EmitQuota(told, c.quota);
      QuotaTold(told, c.quota);
      TwoPutsEnd(quoted, final);
      ToldThenEnds(told, quoted, Put(Put(quoted, Terminal(final)), EndOfStream), Tail(final, c));
    }
  }

  /** What `_finish` does to the queue. */
  lemma FinishQueue(s: RunState, turn: Turn, answer: Option<string>, error: Option<Event>, c: Closing)
    requires s.trail.open.None?
    requires error.Some? ==> error.value.ErrorEvent?
    ensures var e := Finish(s, turn, answer, error, c); EndsWith(s, e.state, Tail(e.final, c))
  {
    var told := TellError(s, error, c.errorWrite);
    var final := FinalTurn(turn, s.calls, answer, error, c);
    ErrorTold(s, error, c.errorWrite);
    ClosedEnds(told, final, c);
    ToldThenEnds(s, told, Closed(told, final, c), Tail(final, c));
  }

  lemma EmitPlain(s: RunState, e: Event, w: Write)
    requires Consistent(s.trail) && Accounted(s) && s.trail.open.None? && !e.StepEvent? && !e.ModelCallEvent?
    ensures var u := s.(trail := Emitted(s.trail, e, w));
      Consistent(u.trail) && Accounted(u) && StoredCalls(u.trail) == StoredCalls(s.trail)
  {
    EmitKeeps(s.trail, e, w);
    EmitAccounted(s, e, w);
    EmittedCalls(s.trail, e, w);
    assert StoredCalls(s.trail) + [] == StoredCalls(s.trail);
  }

  lemma PutKeeps(s: RunState, item: StreamItem)
    requires item.Completed? || item.FailedTurn? || item.EndOfStream?
    requires Consistent(s.trail) && Accounted(s)
    ensures Consistent(Put(s, item).trail) && Accounted(Put(s, item))
    ensures StoredCalls(Put(s, item).trail) == StoredCalls(s.trail)
  {
    PutPlain(s.trail.queue, item);
  }

  /** Both invariants, and the stored model calls stay what they were. */
  ghost predicate Kept(early: RunState, late: RunState) {
    Consistent(late.trail) && Accounted(late) && StoredCalls(late.trail) == StoredCalls(early.trail)
  }

  lemma ErrorKept(s: RunState, error: Option<Event>, w: Write)
    requires Consistent(s.trail) && Accounted(s) && s.trail.open.None?
    requires error.Some? ==> error.value.ErrorEvent?
    ensures Kept(s, TellError(s, error, w)) && TellError(s, error, w).trail.open.None?
  {
    if error.Some? {
      EmitPlain(s, error.value, w);
    }
  }

  lemma ClosedKept(told: RunState, final: Turn, c: Closing)
    requires Consistent(told.trail) && Accounted(told) && told.trail.open.None?
    ensures Kept(told, Closed(told, final, c))
  {
    if c.traceFails {
      PutKeeps(told, EndOfStream);
    } else {
      if c.quota.QuotaIs? {
        EmitPlain(told, QuotaEvent(c.quota.body), c.quota.write);
      }
      var quoted := EmitQuota(told, c.quota);
      PutKeeps(quoted, Terminal(final));
      PutKeeps(Put(quoted, Terminal(final)), EndOfStream);
    }
  }

  lemma FinishKeeps(s: RunState, turn: Turn, answer: Option<string>, error: Option<Event>, c: Closing)
    requires Consistent(s.trail) && Accounted(s) && s.trail.open.None?
    requires error.Some? ==> error.value.ErrorEvent?
    ensures Kept(s, Finish(s, turn, answer, error, c).state)
  {
    ErrorKept(s, error, c.errorWrite);
    ClosedKept(TellError(s, error, c.errorWrite), FinalTurn(turn, s.calls, answer, error, c), c);
  }

  lemma WorkQueue(turn: Turn, nodes: seq<Node>)
    ensures var r := Exec(Begin(turn), nodes);
      && r.state.trail.open.None?
      && Extends([Started(turn)], r.state.trail.queue)
      && (r.failure.None? ==> TextsOf(r.state.trail.queue) == Says(nodes))
  {
    BeginQueue(turn);
    ExecExtends(Begin(turn), nodes);
    assert OpenStart(Exec(Begin(turn), nodes).state.trail) == None;
    assert [] + Says(nodes) == Says(nodes);
  }

  lemma WorkKeeps(turn: Turn, nodes: seq<Node>)
    requires Clean(nodes)
    ensures Consistent(Exec(Begin(turn), nodes).state.trail) && Accounted(Exec(Begin(turn), nodes).state)
  {
    BeginKeeps(turn);
    BeginAccounted(turn);
    ExecKeeps(Begin(turn), nodes);
  }

  /** For every pattern of success, error and cancellation of what the turn awaits, its stream is the
      start, then tokens, steps and events, then one terminal item and the end marker. It completes
      exactly when the work raised nothing, gave an answer and the row was stored; then it carries the
      answer. A failed one carries no output. */
  lemma StreamGrammar(turn: Turn, nodes: seq<Node>, answer: Option<string>, c: Closing)
    requires Created(turn) && Uncancelled(c) && !c.traceFails
    ensures var e := RunTurn(turn, nodes, answer, c);
      var q := e.state.trail.queue;
      && |q| >= 3 && q[0] == Started(turn)
      && (forall i :: 0 < i < |q| - 2 ==> MidItem(q[i]))
      && q[|q| - 2] == Terminal(e.final) && q[|q| - 1] == EndOfStream
      && (e.final.status == TurnCompleted <==>
            Exec(Begin(turn), nodes).failure.None? && answer.Some? && c.rowStored)
      && (e.final.status == TurnCompleted ==> e.final.output == answer && e.final == e.row)
      && (e.final.status != TurnCompleted ==> e.final.status == TurnFailed && e.final.output.None?
                                              && e.final.errorCode.Some?)
  {
    WorkQueue(turn, nodes);
    var ran := Exec(Begin(turn), nodes);
    FinishQueue(ran.state, turn, answer, ErrorAfter(ran.failure, answer), c);
  }

  /** The tokens of a turn whose work failed nowhere are the texts that work wrote. */
  lemma TurnTexts(turn: Turn, nodes: seq<Node>, answer: Option<string>, c: Closing)
    requires Exec(Begin(turn), nodes).failure.None?
    ensures TextsOf(RunTurn(turn, nodes, answer, c).state.trail.queue) == Says(nodes)
  {
    WorkQueue(turn, nodes);
    var ran := Exec(Begin(turn), nodes);
    FinishQueue(ran.state, turn, answer, ErrorAfter(ran.failure, answer), c);
  }

  /** If asking for the trace backend's health itself raises, the stream ends with no terminal item and
      the stored row stays running: that call is the one thing `_finish` awaits unguarded. */
  lemma TraceErrorLosesTheTerminal(turn: Turn, nodes: seq<Node>, answer: Option<string>, c: Closing)
    requires Created(turn) && Uncancelled(c)
    ensures var e := RunTurn(turn, nodes, answer, c);
      (exists i :: 0 <= i < |e.state.trail.queue| &&
         (e.state.trail.queue[i].Completed? || e.state.trail.queue[i].FailedTurn?)) <==> !c.traceFails
    ensures c.traceFails ==> RunTurn(turn, nodes, answer, c).row == turn
  {
    WorkQueue(turn, nodes);
    var ran := Exec(Begin(turn), nodes);
    FinishQueue(ran.state, turn, answer, ErrorAfter(ran.failure, answer), c);
    var q := RunTurn(turn, nodes, answer, c).state.trail.queue;
    if c.traceFails {
      forall i | 0 <= i < |q| ensures !(q[i].Completed? || q[i].FailedTurn?) {
        if 1 <= i < |q| - 1 { assert q[i] == q[..|q| - 1][i]; }
        if i == 0 { assert q[0] == q[..|q| - 1][0]; }
      }
    } else {
      assert q[|q| - 2] == Terminal(RunTurn(turn, nodes, answer, c).final);
    }
  }

  /** What `_finish` records after the work's events: the error of a turn that failed, and the quota, each
      when its write is stored, in that order. */
  function FinishEvents(error: Option<Event>, c: Closing): seq<Event> {
    (if error.Some? && c.errorWrite.Stored? then [error.value] else []) +
    (if !c.traceFails && c.quota.QuotaIs? && c.quota.write.Stored? then [QuotaEvent(c.quota.body)] else [])
  }

  lemma NumberConcat(log: seq<StoredEvent>, a: seq<Event>, b: seq<Event>)
    ensures AppendEvents(AppendEvents(log, a), b) == AppendEvents(log, a + b)
  {
  }

  lemma FinishLog(s: RunState, turn: Turn, answer: Option<string>, error: Option<Event>, c: Closing)
    requires s.trail.open.None?
    requires error.Some? ==> error.value.ErrorEvent?
    ensures Finish(s, turn, answer, error, c).state.trail.log == AppendEvents(s.trail.log, FinishEvents(error, c))
  {
    var first := if error.Some? && c.errorWrite.Stored? then [error.value] else [];
    var told := TellError(s, error, c.errorWrite);
    assert told.trail.log == AppendEvents(s.trail.log, first);
    ErrorTold(s, error, c.errorWrite);
    var second := if !c.traceFails && c.quota.QuotaIs? && c.quota.write.Stored? then [QuotaEvent(c.quota.body)] else [];
    assert Finish(s, turn, answer, error, c).state.trail.log == AppendEvents(told.trail.log, second);
    NumberConcat(s.trail.log, first, second);
  }

  /** A failed turn's error event is its last but for the quota's, and nothing else is recorded: whatever
      ended the work, a provider that is gone, an extraction that is invalid, a cancellation or a crash. */
  lemma FailureIsRecorded(turn: Turn, nodes: seq<Node>, answer: Option<string>, c: Closing)
    ensures var ran := Exec(Begin(turn), nodes);
      RunTurn(turn, nodes, answer, c).state.trail.log
      == AppendEvents(ran.state.trail.log, FinishEvents(ErrorAfter(ran.failure, answer), c))
  {
    WorkQueue(turn, nodes);
    var ran := Exec(Begin(turn), nodes);
    FinishLog(ran.state, turn, answer, ErrorAfter(ran.failure, answer), c);
  }

  // ------------------------------------------------------------------ usage

  lemma SettledUsage(s: RunState, m: Meter)
    requires Accounted(s) && s.trail.open.None?
    ensures Total(s.calls, m) == Total(StoredCalls(s.trail), m) + Total(LostCalls(s.trail), m)
    ensures s.trail.lost == [] ==> s.calls == StoredCalls(s.trail)
  {
    assert StoredCalls(s.trail) + [] == StoredCalls(s.trail);
  }

  /** The tally of a finished turn is what its stored `model_call` events add up to, plus what was lost
      with batches that could not be written; so the stored totals are right exactly when the lost
      calls used nothing, and in particular when every write is stored. */
  lemma UsageIsConserved(turn: Turn, nodes: seq<Node>, answer: Option<string>, c: Closing)
    requires Created(turn) && Clean(nodes) && Uncancelled(c) && !c.traceFails && c.rowStored
    ensures var e := RunTurn(turn, nodes, answer, c);
      && e.row.usage == UsageOf(e.state.calls)
      && (forall m ::
            Total(e.state.calls, m) == Total(StoredCalls(e.state.trail), m) + Total(LostCalls(e.state.trail), m))
      && (e.row.usage == UsageOf(StoredCalls(e.state.trail)) <==> forall m :: Total(LostCalls(e.state.trail), m) == 0)
      && (AllStored(nodes) ==>
            && e.row.usage == UsageOf(StoredCalls(e.state.trail))
            && e.row.models == ModelsOf(StoredCalls(e.state.trail))
            && e.row.prompts == PromptsOf(StoredCalls(e.state.trail)))
  {
    TurnSettles(turn, nodes, answer, c);
    var e := RunTurn(turn, nodes, answer, c);
    UsageByMeter(e.state.calls, StoredCalls(e.state.trail), LostCalls(e.state.trail));
  }

  lemma TurnSettles(turn: Turn, nodes: seq<Node>, answer: Option<string>, c: Closing)
    requires Created(turn) && Clean(nodes)
    ensures var s := RunTurn(turn, nodes, answer, c).state;
      && s.calls == Exec(Begin(turn), nodes).state.calls
      && (forall m :: Total(s.calls, m) == Total(StoredCalls(s.trail), m) + Total(LostCalls(s.trail), m))
      && (AllStored(nodes) ==> s.calls == StoredCalls(s.trail))
  {
    WorkQueue(turn, nodes);
    WorkKeeps(turn, nodes);
    var ran := Exec(Begin(turn), nodes);
    FinishQueue(ran.state, turn, answer, ErrorAfter(ran.failure, answer), c);
    FinishKeeps(ran.state, turn, answer, ErrorAfter(ran.failure, answer), c);
    var s := RunTurn(turn, nodes, answer, c).state;
    forall m ensures Total(s.calls, m) == Total(StoredCalls(s.trail), m) + Total(LostCalls(s.trail), m) {
      SettledUsage(s, m);
    }
    SettledUsage(s, InputTokens);
    ExecLosesNothing(Begin(turn), nodes);
  }

  lemma SameUsage(a: seq<Call>, b: seq<Call>, m: Meter)
    requires UsageOf(a) == UsageOf(b)
    ensures Total(a, m) == Total(b, m)
  {
    match m
    case InputTokens => case CachedTokens => case OutputTokens => case CostUnits => case ChargedTokens =>
  }

  lemma UsageByMeter(calls: seq<Call>, stored: seq<Call>, lost: seq<Call>)
    requires forall m :: Total(calls, m) == Total(stored, m) + Total(lost, m)
    ensures UsageOf(calls) == UsageOf(stored) <==> forall m :: Total(lost, m) == 0
  {
    if UsageOf(calls) == UsageOf(stored) {
      forall m ensures Total(lost, m) == 0 {
        SameUsage(calls, stored, m);
        assert Total(calls, m) == Total(stored, m) + Total(lost, m);
      }
    } else {
      assert exists m :: Total(calls, m) != Total(stored, m);
      var m :| Total(calls, m) != Total(stored, m);
      assert Total(lost, m) != 0;
    }
  }

  // ------------------------------------------------------------------ a turn the spend gate stopped

  datatype BlockedRun = BlockedEnded(ended: Ended) | Abandoned(state: RunState)

  function BlockedWork(at: int, notice: string, reply: string, measured: int, w: Write): seq<Node> {
    [RunStep(Blocked, at, [SetStatus(Refused), Emit(BlockedEvent(notice), Stored)], measured, w), Say(reply)]
  }

  /** `_run_blocked`. Errors are caught, a cancellation is not: it leaves without finishing. */
  function RunBlocked(turn: Turn, at: int, notice: string, reply: string, measured: int, w: Write,
                      c: Closing): BlockedRun {
    var ran := Exec(Begin(turn), BlockedWork(at, notice, reply, measured, w));
    match ran.failure
    case Some(Cancelled) => Abandoned(ran.state)
    case Some(failure) => BlockedEnded(Finish(ran.state, turn, Some(reply), Some(ErrorOf(Crashed)), c))
    case None => BlockedEnded(Finish(ran.state, turn, Some(reply), None, c))
  }

  lemma BlockedWorkIsClean(at: int, notice: string, reply: string, measured: int, w: Write)
    ensures Clean(BlockedWork(at, notice, reply, measured, w))
    ensures Says(BlockedWork(at, notice, reply, measured, w)) == [reply]
  {
    var body := [SetStatus(Refused), Emit(BlockedEvent(notice), Stored)];
    var nodes := BlockedWork(at, notice, reply, measured, w);
    assert body[1..][1..] == [] && Says(body[1..][1..]) == [];
    assert Says(body[1..]) == NodeSays(body[1]) + Says(body[1..][1..]);
    assert Says(body) == NodeSays(body[0]) + Says(body[1..]) == [];
    assert nodes[1..] == [Say(reply)] && nodes[1..][1..] == [];
    assert Says(nodes[1..]) == [reply] + Says(nodes[1..][1..]);
  }

  lemma BlockedOutcome(turn: Turn, at: int, notice: string, reply: string, measured: int, w: Write)
    ensures Exec(Begin(turn), BlockedWork(at, notice, reply, measured, w)).failure
         == if w.Interrupted? then Some(Cancelled) else None
  {
    var body := [SetStatus(Refused), Emit(BlockedEvent(notice), Stored)];
    var nodes := BlockedWork(at, notice, reply, measured, w);
    var s := Begin(turn);
    var entered := s.(trail := Entered(s.trail, Blocked, at));
    var one := ExecNode(entered, body[0]);
    assert Exec(entered, body) == Exec(one.state, body[1..]);
    var two := ExecNode(one.state, body[1..][0]);
    assert two.failure.None?;
    assert Exec(one.state, body[1..]) == Exec(two.state, body[1..][1..]) == Ran(two.state, None);
    var first := ExecNode(s, nodes[0]);
    assert first.failure == if w.Interrupted? then Some(Cancelled) else None;
    if first.failure.None? {
      assert Exec(s, nodes) == Exec(first.state, nodes[1..]);
      var second := ExecNode(first.state, nodes[1..][0]);
      assert Exec(first.state, nodes[1..]) == Exec(second.state, nodes[1..][1..]) == Ran(second.state, None);
    }
  }

  /** Once its task has started, a blocked turn's stream ends exactly when the task is not cancelled while
      its step is written. Then it is completed with the template reply as its one token and its output (or
      failed when the row could not be stored); otherwise there is neither a terminal item nor an end marker. */
  lemma BlockedTurnEnds(turn: Turn, at: int, notice: string, reply: string, measured: int, w: Write, c: Closing)
    requires Created(turn) && Uncancelled(c) && !c.traceFails
    ensures RunBlocked(turn, at, notice, reply, measured, w, c).Abandoned? <==> w.Interrupted?
    ensures match RunBlocked(turn, at, notice, reply, measured, w, c)
      case Abandoned(s) =>
        && s.trail.open.None?
        && forall i :: 0 <= i < |s.trail.queue| ==> s.trail.queue[i].Started? || MidItem(s.trail.queue[i])
      case BlockedEnded(e) =>
        var q := e.state.trail.queue;
        && |q| >= 2 && q[|q| - 2] == Terminal(e.final) && q[|q| - 1] == EndOfStream
        && TextsOf(q) == [reply]
        && (e.final.status == TurnCompleted <==> c.rowStored)
        && (e.final.status == TurnCompleted ==> e.final.output == Some(reply))
  {
    BlockedWorkIsClean(at, notice, reply, measured, w);
    BlockedOutcome(turn, at, notice, reply, measured, w);
    var nodes := BlockedWork(at, notice, reply, measured, w);
    WorkQueue(turn, nodes);
    var ran := Exec(Begin(turn), nodes);
    if !w.Interrupted? {
      FinishQueue(ran.state, turn, Some(reply), None, c);
    }
  }
}
