// A live turn and the same turn reloaded: the writer's invariants and the reader's meet.

module LiveReload {
  import opened Basics
  import opened Events
  import opened TrailModel
  import opened Protocol
  import opened TurnTrail
  import opened TurnRunner
  import opened TurnLifecycle
  import opened WrittenEvents
  import opened Conversation
  import opened TurnGraph

  /** The row of a turn whose stream has been read to its end. */
  function LiveTurn(begun: ChatTurn, queue: seq<StreamItem>, quota: Option<string>): ChatTurn {
    ReduceAll(begun, FramesOf(UntilEnd(queue), quota))
  }

  /** The same turn after a reload: its stored row, with its stored events and no starts. */
  function ReloadedTurn(e: Ended): ChatTurn {
    FromTurn(e.row, false).(events := Some(AsTrail(e.state.trail.log)))
  }

  function EventsHeld(t: ChatTurn): seq<TrailEvent> {
    if t.events.Some? then t.events.value else []
  }

  function RowsBeforeMerge(t: ChatTurn): seq<StepView> {
    RawRows(EventsHeld(t), t.starts)
  }

  function RowsShown(t: ChatTurn, now: int): seq<StepView> {
    StepViews(EventsHeld(t), t.starts, now)
  }

  predicate JustSent(t: ChatTurn) {
    t.chunks == [] && t.starts == [] && t.events == Some([]) && t.status == Streaming
  }

  // ------------------------------------------------------------------ reading a finished stream

  lemma {:induction false} UntilEndIs(items: seq<StreamItem>, n: nat)
    requires n < |items| && NoEnd(items[..n]) && items[n].EndOfStream?
    ensures UntilEnd(items) == items[..n]
  {
    if n > 0 {
      assert items[..n][0] == items[0];
      var rest := items[1..][..n - 1];
      forall i | 0 <= i < |rest| ensures !rest[i].EndOfStream? {
        assert rest[i] == items[..n][i + 1];
      }
      UntilEndIs(items[1..], n - 1);
      assert items[..n] == [items[0]] + rest;
    }
  }

  /** A stream as every finished turn leaves it. */
  predicate Ends(queue: seq<StreamItem>, turn: Turn, final: Turn) {
    var n := |queue| - 2;
    && n >= 1 && queue[0] == Started(turn) && (forall i :: 0 < i < n ==> MidItem(queue[i]))
    && queue[n] == Terminal(final) && queue[n + 1] == EndOfStream
  }

  function TerminalFrame(final: Turn, quota: Option<string>): Frame {
    if final.status == TurnCompleted then CompletedFrame(final, quota) else FailedFrame(final, quota)
  }

  lemma ReadSoFar(queue: seq<StreamItem>, turn: Turn, final: Turn, quota: Option<string>)
    requires Ends(queue, turn, final)
    ensures var n := |queue| - 2;
      && NoEnd(queue[..n]) && BeforeTerminal(queue[..n]) && NoEnd(queue[..n + 1])
      && !queue[n].EndOfStream? && FrameOf(queue[n], quota) == TerminalFrame(final, quota)
  {
    var n := |queue| - 2;
    var whole := queue[..n + 1];
    forall i | 0 <= i < |whole| ensures !whole[i].EndOfStream? {
      assert whole[i] == queue[i];
    }
  }

  lemma ReadToTheEnd(begun: ChatTurn, queue: seq<StreamItem>, turn: Turn, final: Turn, quota: Option<string>)
    requires Ends(queue, turn, final)
    ensures var body := queue[..|queue| - 2];
      && NoEnd(body) && BeforeTerminal(body)
      && LiveTurn(begun, queue, quota) == Reduce(ReduceAll(begun, FramesOf(body, quota)), TerminalFrame(final, quota))
  {
    var n := |queue| - 2;
    ReadSoFar(queue, turn, final, quota);
    UntilEndIs(queue, n + 1);
    assert queue[..n + 1] == queue[..n] + [queue[n]];
    FramesSnoc(begun, queue[..n], queue[n], quota);
  }

  lemma FramesSnoc(begun: ChatTurn, items: seq<StreamItem>, last: StreamItem, quota: Option<string>)
    requires NoEnd(items) && NoEnd(items + [last])
    ensures !last.EndOfStream?
    ensures ReduceAll(begun, FramesOf(items + [last], quota))
         == Reduce(ReduceAll(begun, FramesOf(items, quota)), FrameOf(last, quota))
  {
    assert (items + [last])[|items|] == last;
    assert FramesOf(items + [last], quota)[..|items|] == FramesOf(items, quota);
  }

  /** The two closing items add nothing to what a reader keeps. */
  lemma ClosingItems(queue: seq<StreamItem>, turn: Turn, final: Turn)
    requires Ends(queue, turn, final)
    ensures var body := queue[..|queue| - 2];
      StartsOf(queue) == StartsOf(body) && RecordedOf(queue) == RecordedOf(body) && TextsOf(queue) == TextsOf(body)
  {
    var n := |queue| - 2;
    PutPlain(queue[..n], queue[n]);
    PutPlain(queue[..n + 1], queue[n + 1]);
    assert queue[..n] + [queue[n]] == queue[..n + 1] && queue[..n + 1] + [queue[n + 1]] == queue;
  }

  /** What a row holds once its terminal frame has come. */
  predicate HoldsFinished(t: ChatTurn, texts: seq<string>, starts: seq<StepStart>, log: seq<StoredEvent>, final: Turn) {
    && t.events == Some(AsTrail(log)) && t.starts == starts && t.turn == Some(final)
    && t.status == (if final.status == TurnCompleted then ShownCompleted else ShownFailed)
    && OutputOf(t) == (if final.status == TurnCompleted then OutputText(final) else Concat(texts))
    && (t.chunks == texts <==> final.status != TurnCompleted || Concat(texts) == OutputText(final))
  }

  lemma TerminalHolds(u: ChatTurn, begun: ChatTurn, texts: seq<string>, starts: seq<StepStart>, log: seq<StoredEvent>,
                      final: Turn, quota: Option<string>)
    requires Holds(u, begun, texts, starts, log)
    ensures HoldsFinished(Reduce(u, TerminalFrame(final, quota)), texts, starts, log, final)
  {
    CompletedShowsItsOutput(u, final, quota);
  }

  /** What the client holds of a finished turn. */
  lemma LiveHolds(begun: ChatTurn, queue: seq<StreamItem>, turn: Turn, final: Turn, quota: Option<string>)
    requires JustSent(begun) && Ends(queue, turn, final)
    ensures HoldsFinished(LiveTurn(begun, queue, quota), TextsOf(queue), StartsOf(queue), RecordedOf(queue), final)
  {
    ReadToTheEnd(begun, queue, turn, final, quota);
    ClosingItems(queue, turn, final);
    var body := queue[..|queue| - 2];
    ClientHoldsTheStream(begun, body, quota);
    TerminalHolds(ReduceAll(begun, FramesOf(body, quota)), begun, TextsOf(body), StartsOf(body), RecordedOf(body),
        final, quota);
  }

  lemma FramesOfTheBody(queue: seq<StreamItem>, turn: Turn, final: Turn, quota: Option<string>)
    requires Ends(queue, turn, final) && NoEnd(queue[..|queue| - 2])
    ensures var frames := FramesOf(queue[..|queue| - 2], quota);
      && |frames| > 0 && frames == [StartedFrame(turn.id, turn.startedAt)] + frames[1..]
      && NoStarted(frames[1..]) && NoTerminal(frames[1..])
  {
    var body := queue[..|queue| - 2];
    var frames := FramesOf(body, quota);
    assert frames[0] == FrameOf(queue[0], quota);
    forall i | 0 <= i < |frames[1..]|
      ensures !frames[1..][i].StartedFrame? && !frames[1..][i].CompletedFrame? && !frames[1..][i].FailedFrame? {
      assert MidItem(queue[i + 1]) && frames[1..][i] == FrameOf(body[i + 1], quota);
    }
  }

  /** The rest of that row: it bears the stored turn's id and start, what it was sent with, the quota of the
      last frame, and an error exactly when the turn failed. */
  lemma LiveIsNamed(begun: ChatTurn, queue: seq<StreamItem>, turn: Turn, final: Turn, quota: Option<string>)
    requires Ends(queue, turn, final)
    ensures var live := LiveTurn(begun, queue, quota);
      && live.id == Some(turn.id) && live.sentAt == turn.startedAt && live.quotaAfter == quota
      && live.key == begun.key && live.input == begun.input && live.live == begun.live
      && live.error == (if final.status == TurnCompleted then None
                        else if final.errorCode.Some? then final.errorCode else Some("This turn failed."))
  {
    ReadToTheEnd(begun, queue, turn, final, quota);
    FramesOfTheBody(queue, turn, final, quota);
    var frames := FramesOf(queue[..|queue| - 2], quota);
    NamedByTheFirst(begun, turn.id, turn.startedAt, frames[1..]);
  }

  lemma TurnEnds(turn: Turn, nodes: seq<Node>, answer: Option<string>, c: Closing)
    requires Created(turn) && Uncancelled(c) && !c.traceFails
    ensures var e := RunTurn(turn, nodes, answer, c); Ends(e.state.trail.queue, turn, e.final)
  {
    StreamGrammar(turn, nodes, answer, c);
  }

  // ------------------------------------------------------------------ rows from events and starts

  lemma {:induction false} AddStartsCount(r: Rows, starts: seq<StepStart>)
    ensures |AddStarts(r, starts)| == if |starts| > |r.rows| then |starts| else |r.rows|
    decreases |starts| - |r.rows|
  {
    if |starts| > |r.rows| {
      AddStartsCount(Rows(r.rows + [RunningRow(|r.rows|, starts[|r.rows|], r.pending)], []), starts);
    }
  }

  /** The starts change nothing exactly when every one of them is matched by a recorded step. */
  lemma StartsMatter(log: seq<StoredEvent>, starts: seq<StepStart>)
    requires Numbered(log)
    ensures RawRows(AsTrail(log), starts) == RawRows(AsTrail(log), []) <==> |starts| <= StepCount(Unnumbered(log))
    ensures |RawRows(AsTrail(log), [])| == StepCount(Unnumbered(log))
    ensures |starts| >= StepCount(Unnumbered(log)) ==> |RawRows(AsTrail(log), starts)| == |starts|
  {
    TrailEventsAre(log);
    ReplayRows(Unnumbered(log));
    AddStartsCount(Replay(Unnumbered(log)), starts);
    AddStartsCount(Replay(Unnumbered(log)), []);
  }

  lemma TrailDetermines(a: seq<StoredEvent>, b: seq<StoredEvent>)
    requires AsTrail(a) == AsTrail(b)
    ensures a == b
  {
    assert |a| == |AsTrail(a)| == |b|;
    forall i | 0 <= i < |a| ensures a[i] == b[i] {
      assert AsTrail(a)[i] == AsTrail(b)[i];
    }
  }

  lemma NumberedFromOne(log: seq<StoredEvent>)
    requires forall i :: 0 <= i < |log| ==> log[i].number == i + 1
    ensures Numbered(log)
  {
  }

  // ------------------------------------------------------------------ live equals reload

  /** The finished trail of any turn: consistent, and with no step left open. */
  lemma TurnSettled(turn: Turn, nodes: seq<Node>, answer: Option<string>, c: Closing)
    requires Created(turn) && Clean(nodes)
    ensures var t := RunTurn(turn, nodes, answer, c).state.trail;
      && LogConsistent(t) && Balanced(t) && t.open.None?
      && (AllStored(nodes) ==> t.lost == []) && (Alone(nodes) ==> t.foreign == 0)
  {
    WorkQueue(turn, nodes);
    WorkKeeps(turn, nodes);
    var ran := Exec(Begin(turn), nodes);
    FinishQueue(ran.state, turn, answer, ErrorAfter(ran.failure, answer), c);
    FinishKeeps(ran.state, turn, answer, ErrorAfter(ran.failure, answer), c);
    ExecLosesNothing(Begin(turn), nodes);
  }

  lemma TrailsCompared(t: TrailState)
    requires LogConsistent(t) && Balanced(t) && t.open.None?
    ensures AsTrail(RecordedOf(t.queue)) == AsTrail(t.log) <==> t.foreign == 0
    ensures t.foreign == 0 ==>
      |RawRows(AsTrail(t.log), StartsOf(t.queue))| == |RawRows(AsTrail(t.log), [])| + StepCount(t.lost)
    ensures t.foreign == 0 ==>
      (RawRows(AsTrail(t.log), StartsOf(t.queue)) == RawRows(AsTrail(t.log), []) <==> StepCount(t.lost) == 0)
  {
    if AsTrail(RecordedOf(t.queue)) == AsTrail(t.log) {
      TrailDetermines(RecordedOf(t.queue), t.log);
    }
    NumberedFromOne(t.log);
    StartsMatter(t.log, StartsOf(t.queue));
  }

  /** A live turn and its reload. The events are the same exactly when nobody else appended to the
      turn; then the rows are the same exactly when no step's record was lost, and otherwise the live
      turn keeps one extra row for each lost record. */
  lemma LiveMeetsReload(turn: Turn, nodes: seq<Node>, answer: Option<string>, c: Closing, begun: ChatTurn,
                        quota: Option<string>)
    requires Created(turn) && Clean(nodes) && Uncancelled(c) && !c.traceFails && JustSent(begun)
    ensures var e := RunTurn(turn, nodes, answer, c);
      var live, reloaded, t := LiveTurn(begun, e.state.trail.queue, quota), ReloadedTurn(e), e.state.trail;
      && (live.events == reloaded.events <==> t.foreign == 0)
      && (t.foreign == 0 ==>
            && |RowsBeforeMerge(live)| == |RowsBeforeMerge(reloaded)| + StepCount(t.lost)
            && (RowsBeforeMerge(live) == RowsBeforeMerge(reloaded) <==> StepCount(t.lost) == 0))
  {
    var e := RunTurn(turn, nodes, answer, c);
    TurnEnds(turn, nodes, answer, c);
    LiveHolds(begun, e.state.trail.queue, turn, e.final, quota);
    TurnSettled(turn, nodes, answer, c);
    TrailsCompared(e.state.trail);
  }

  /** Live equals reload: for every run of a turn whose writes succeed and which nobody else writes to,
      once its stream has ended, the rows at any time and the facts are those of the stored events
      alone. Steps that were reported inside others change nothing here. */
  lemma LiveEqualsReload(turn: Turn, nodes: seq<Node>, answer: Option<string>, c: Closing, begun: ChatTurn,
                         quota: Option<string>, now: int)
    requires Created(turn) && Clean(nodes) && Uncancelled(c) && !c.traceFails && JustSent(begun)
    requires AllStored(nodes) && Alone(nodes)
    ensures var e := RunTurn(turn, nodes, answer, c);
      var live, reloaded := LiveTurn(begun, e.state.trail.queue, quota), ReloadedTurn(e);
      && live.events == reloaded.events
      && RowsShown(live, now) == RowsShown(reloaded, now)
      && FactsOf(EventsHeld(live)) == FactsOf(EventsHeld(reloaded))
  {
    LiveMeetsReload(turn, nodes, answer, c, begun, quota);
    TurnSettled(turn, nodes, answer, c);
    assert StepsIn([]) == [];
  }

  /** And they are all that the turn said: the events of a live turn, and of its reload, are what its
      work wrote, its error and its quota, in that order and nothing else. */
  lemma LiveShowsWhatWasWritten(turn: Turn, nodes: seq<Node>, answer: Option<string>, c: Closing, begun: ChatTurn,
                                quota: Option<string>)
    requires Created(turn) && Clean(nodes) && Uncancelled(c) && !c.traceFails && JustSent(begun)
    requires AllStored(nodes) && Alone(nodes) && ReportsBetweenSteps(nodes, false)
    ensures var e, error := RunTurn(turn, nodes, answer, c), TurnError(HowItEnds(nodes, false), answer);
      var live, reloaded := LiveTurn(begun, e.state.trail.queue, quota), ReloadedTurn(e);
      && EventsOf(EventsHeld(live)) == EventsOf(EventsHeld(reloaded))
      && EventsOf(EventsHeld(live)) ==
           Emits(nodes, false)
           + (if error.Some? && c.errorWrite.Stored? then [error.value] else [])
           + (if c.quota.QuotaIs? && c.quota.write.Stored? then [QuotaEvent(c.quota.body)] else [])
  {
    var e := RunTurn(turn, nodes, answer, c);
    LiveEqualsReload(turn, nodes, answer, c, begun, quota, 0);
    TurnRecords(turn, nodes, answer, c);
    WrittenInOrder(nodes);
    assert EventsOf(AsTrail(e.state.trail.log)) == Unnumbered(e.state.trail.log);
  }

  /** The reply and the status: a completed turn shows the same text as its reload. A failed one keeps
      what was streamed, which a reload does not show; and a turn whose row could not be stored is
      failed on screen while its stored row still runs. */
  lemma LiveOutcome(turn: Turn, nodes: seq<Node>, answer: Option<string>, c: Closing, begun: ChatTurn,
                    quota: Option<string>)
    requires Created(turn) && Uncancelled(c) && !c.traceFails && JustSent(begun)
    ensures var e := RunTurn(turn, nodes, answer, c);
      var live, reloaded := LiveTurn(begun, e.state.trail.queue, quota), ReloadedTurn(e);
      && (live.status == reloaded.status <==> c.rowStored)
      && (!c.rowStored ==> live.status == ShownFailed && reloaded.status == ShownRunning)
      && (OutputOf(live) == OutputOf(reloaded) <==>
            e.final.status == TurnCompleted || Concat(TextsOf(e.state.trail.queue)) == "")
  {
    var e := RunTurn(turn, nodes, answer, c);
    StreamGrammar(turn, nodes, answer, c);
    TurnEnds(turn, nodes, answer, c);
    LiveHolds(begun, e.state.trail.queue, turn, e.final, quota);
    RowAndFinal(turn, nodes, answer, c);
    ReloadedShows(e);
  }

  /** The stored row against the turn on the terminal item. */
  lemma RowAndFinal(turn: Turn, nodes: seq<Node>, answer: Option<string>, c: Closing)
    requires Created(turn) && !c.traceFails
    ensures var e := RunTurn(turn, nodes, answer, c);
      && (c.rowStored ==> e.row == e.final && e.row.status != TurnRunning)
      && (!c.rowStored ==> e.row == turn && e.final.status == TurnFailed)
      && (e.final.status != TurnCompleted ==> OutputText(e.row) == "")
  {
  }

  lemma ReloadedShows(e: Ended)
    ensures ReloadedTurn(e).status == ShownStatus(e.row.status) && OutputOf(ReloadedTurn(e)) == OutputText(e.row)
  {
    assert Concat([OutputText(e.row)]) == OutputText(e.row);
  }

  /** The reply never jumps at the end: on every completed turn of the graph, whatever its route, the
      client keeps the chunks it was streamed, and they are the stored output. */
  lemma CompletedReplyNeverJumps(turn: Turn, before: seq<Node>, ctx: Context, after: seq<Node>, c: Closing,
                                 begun: ChatTurn, quota: Option<string>)
    requires Created(turn) && Uncancelled(c) && !c.traceFails && JustSent(begun)
    requires Faithful(ctx) && WritesNothing(before) && WritesNothing(after)
    requires RunTurn(turn, TurnWork(before, ctx, after), TurnAnswer(ctx), c).final.status == TurnCompleted
    ensures var e := RunTurn(turn, TurnWork(before, ctx, after), TurnAnswer(ctx), c);
      var live := LiveTurn(begun, e.state.trail.queue, quota);
      && live.chunks == TextsOf(e.state.trail.queue)
      && OutputOf(live) == OutputOf(ReloadedTurn(e)) && e.row.output == Some(OutputOf(live))
  {
    var nodes := TurnWork(before, ctx, after);
    var e := RunTurn(turn, nodes, TurnAnswer(ctx), c);
    CompletedTurnStreamsItsOutput(turn, before, ctx, after, c);
    StreamGrammar(turn, nodes, TurnAnswer(ctx), c);
    TurnEnds(turn, nodes, TurnAnswer(ctx), c);
    LiveHolds(begun, e.state.trail.queue, turn, e.final, quota);
    LiveOutcome(turn, nodes, TurnAnswer(ctx), c, begun, quota);
  }

  /** Over the wire and through the hook: whatever keep-alives the relay sent, the row a send leaves is
      the fold of the turn's own queue. */
  lemma SentRowIsTheLiveTurn(turns: seq<ChatTurn>, key: string, message: string, at: int, queue: seq<StreamItem>,
                             waits: seq<nat>, last: nat, quota: Option<string>)
    requires Find(turns, key) == [] && |waits| >= |queue|
    ensures var frames := FramesIn(Paced(UntilEnd(queue), waits, quota) + Quiet(last));
      && Find(ApplyAll(turns, SendActions(key, message, at, frames, None)), key)
           == [LiveTurn(NewTurn(key, message, at), queue, quota)]
      && var begun := NewTurn(key, message, at);
      && JustSent(begun) && begun.key == key && begun.input == message && begun.sentAt == at && begun.live
      && begun.id.None? && begun.turn.None? && begun.error.None? && begun.quotaAfter.None?
  {
    var sent := UntilEnd(queue);
    QuietCarriesNothing(Paced(sent, waits, quota), last);
    RelayKeepsOrder(sent, waits, quota);
    SendShowsItsFrames(turns, key, message, at, FramesOf(sent, quota));
  }

  // ------------------------------------------------------------------ loads while the stream is read

  /** The frames of this turn's stream reach the row in order, among whatever else happens. */
  predicate Delivers(acts: seq<Action>, key: string, queue: seq<StreamItem>, quota: Option<string>) {
    && (forall i :: 0 <= i < |acts| ==> Foreign(acts[i], key)) && Unbroken(acts, key)
    && FramesFor(acts, key) == FramesOf(UntilEnd(queue), quota)
  }

  lemma LoadedRow(turns: seq<ChatTurn>, acts: seq<Action>, mine: ChatTurn, queue: seq<StreamItem>,
                  quota: Option<string>)
    requires JustSent(mine) && Find(turns, mine.key) == [mine] && Delivers(acts, mine.key, queue, quota)
    ensures var row, live := TouchAll(mine, acts), LiveTurn(mine, queue, quota);
      && Find(ApplyAll(turns, acts), mine.key) == [row]
      && row == live.(events := row.events)
      && (NoLoad(mine, acts) ==> row.events == live.events)
      && (forall i :: 0 <= i < |acts| && LastLoad(mine, acts, i) ==>
            && row.events == Some(acts[i].events + EventsIn(FramesFor(acts[i + 1..], mine.key)))
            && (row.events == live.events <==> acts[i].events == EventsIn(FramesFor(acts[..i], mine.key))))
  {
    RowSurvivesEverything(turns, acts, mine.key, mine);
    RowIsItsFrames(mine, acts);
    LoadsIntoALiveTurn(mine, acts);
    FoldHoldsEvents(mine, FramesFor(acts, mine.key));
  }

  /** A row whose events are loaded while its stream is still read, by the page of history that the
      turn is on, by a poll or by anything else. With no load it is the live turn. Otherwise its events
      are the stored ones exactly when the last load held just the events whose frames had arrived; and
      when they are, the whole row is the live turn and shows the reloaded rows and facts. */
  lemma LoadsMidStream(turns: seq<ChatTurn>, acts: seq<Action>, mine: ChatTurn, turn: Turn, nodes: seq<Node>,
                       answer: Option<string>, c: Closing, quota: Option<string>, now: int)
    requires Created(turn) && Clean(nodes) && Uncancelled(c) && !c.traceFails && JustSent(mine)
    requires AllStored(nodes) && Alone(nodes) && Find(turns, mine.key) == [mine]
    requires Delivers(acts, mine.key, RunTurn(turn, nodes, answer, c).state.trail.queue, quota)
    ensures var e, row := RunTurn(turn, nodes, answer, c), TouchAll(mine, acts);
      var live, reloaded := LiveTurn(mine, e.state.trail.queue, quota), ReloadedTurn(e);
      && Find(ApplyAll(turns, acts), mine.key) == [row]
      && (NoLoad(mine, acts) ==> row == live)
      && (forall i :: 0 <= i < |acts| && LastLoad(mine, acts, i) ==>
            (row.events == reloaded.events <==> acts[i].events == EventsIn(FramesFor(acts[..i], mine.key))))
      && (row.events == reloaded.events ==>
            && row == live && RowsShown(row, now) == RowsShown(reloaded, now)
            && FactsOf(EventsHeld(row)) == FactsOf(EventsHeld(reloaded)))
  {
    LoadedRow(turns, acts, mine, RunTurn(turn, nodes, answer, c).state.trail.queue, quota);
    LiveEqualsReload(turn, nodes, answer, c, mine, quota, now);
  }

  // ------------------------------------------------------------------ a page read after the turn

  lemma StepCountSnoc(log: seq<StoredEvent>)
    requires |log| > 0
    ensures var init, last := log[..|log| - 1], log[|log| - 1];
      StepCount(Unnumbered(log)) == StepCount(Unnumbered(init)) + (if last.event.StepEvent? then 1 else 0)
  {
    var init, last := log[..|log| - 1], log[|log| - 1];
    assert Unnumbered(log) == Unnumbered(init) + [last.event];
    ReplaySnoc(Unnumbered(init), last.event);
  }

  /** A numbered choice of a numbered log's events. */
  predicate PartOf(part: seq<StoredEvent>, log: seq<StoredEvent>) {
    Numbered(part) && Numbered(log) && forall i :: 0 <= i < |part| ==> part[i] in log
  }

  lemma BelowTheLast(part: seq<StoredEvent>, log: seq<StoredEvent>, n: nat)
    requires PartOf(part, log) && |log| > 0 && n <= |part|
    requires forall i :: 0 <= i < n ==> part[i].number < log[|log| - 1].number
    ensures PartOf(part[..n], log[..|log| - 1])
  {
    forall i | 0 <= i < n ensures part[..n][i] in log[..|log| - 1] {
      var j :| 0 <= j < |log| && log[j] == part[i];
      assert log[..|log| - 1][j] == part[i];
    }
  }

  lemma PartWithoutTheLast(part: seq<StoredEvent>, log: seq<StoredEvent>)
    requires PartOf(part, log) && |part| > 0
    ensures |log| > 0
    ensures if part[|part| - 1] == log[|log| - 1] then PartOf(part[..|part| - 1], log[..|log| - 1])
            else PartOf(part, log[..|log| - 1])
  {
    var n := |part| - 1;
    assert part[n] in log;
    var j :| 0 <= j < |log| && log[j] == part[n];
    if part[n] == log[|log| - 1] {
      BelowTheLast(part, log, n);
    } else {
      BelowTheLast(part, log, n + 1);
      assert part[..n + 1] == part;
    }
  }

  /** A numbered choice of a numbered log's events has at most its steps. */
  lemma {:induction false} PartStepCount(part: seq<StoredEvent>, log: seq<StoredEvent>)
    requires PartOf(part, log)
    ensures StepCount(Unnumbered(part)) <= StepCount(Unnumbered(log))
    decreases |log|
  {
    if |part| > 0 {
      PartWithoutTheLast(part, log);
      StepCountSnoc(log);
      if part[|part| - 1] == log[|log| - 1] {
        StepCountSnoc(part);
        PartStepCount(part[..|part| - 1], log[..|log| - 1]);
      } else {
        PartStepCount(part, log[..|log| - 1]);
      }
    }
  }

  /** When a saved link's page is read afterwards, the worker's events reach the live turn by loading
      its stored events again. From then on its rows are the reloaded rows, as long as no step's
      record was lost: the starts it still holds change nothing. */
  lemma PolledTurnMeetsReload(turn: Turn, nodes: seq<Node>, answer: Option<string>, c: Closing, begun: ChatTurn,
                              quota: Option<string>, later: seq<Event>, now: int)
    requires Created(turn) && Clean(nodes) && Uncancelled(c) && !c.traceFails && JustSent(begun)
    requires StepCount(RunTurn(turn, nodes, answer, c).state.trail.lost) == 0
    ensures var e := RunTurn(turn, nodes, answer, c);
      var log := AppendEvents(e.state.trail.log, later);
      var live := LiveTurn(begun, e.state.trail.queue, quota);
      var polled := Touch(live, EventsArrive(turn.id, AsTrail(log)));
      && live.id == Some(turn.id)
      && RowsShown(polled, now) == StepViews(AsTrail(log), [], now)
      && FactsOf(EventsHeld(polled)) == FactsOf(AsTrail(log))
  {
    var e := RunTurn(turn, nodes, answer, c);
    TurnEnds(turn, nodes, answer, c);
    LiveHolds(begun, e.state.trail.queue, turn, e.final, quota);
    LiveKnowsItsId(begun, e.state.trail.queue, turn, e.final, quota);
    TurnSettled(turn, nodes, answer, c);
    StartsAfterPoll(e.state.trail, later);
    EventsReplaced(LiveTurn(begun, e.state.trail.queue, quota), turn.id,
        AsTrail(AppendEvents(e.state.trail.log, later)), now);
  }

  lemma EventsReplaced(live: ChatTurn, id: string, events: seq<TrailEvent>, now: int)
    requires live.id == Some(id) && RawRows(events, live.starts) == RawRows(events, [])
    ensures var polled := Touch(live, EventsArrive(id, events));
      RowsShown(polled, now) == StepViews(events, [], now) && EventsHeld(polled) == events
  {
  }

  lemma StartsAfterPoll(t: TrailState, later: seq<Event>)
    requires LogConsistent(t) && Balanced(t) && t.open.None? && StepCount(t.lost) == 0
    ensures var log := AppendEvents(t.log, later);
      RawRows(AsTrail(log), StartsOf(t.queue)) == RawRows(AsTrail(log), [])
  {
    var log := AppendEvents(t.log, later);
    NumberedFromOne(log);
    forall i | 0 <= i < |RecordedOf(t.queue)| ensures RecordedOf(t.queue)[i] in log {
      assert RecordedOf(t.queue)[i] in t.log;
    }
    PartStepCount(RecordedOf(t.queue), log);
    StartsMatter(log, StartsOf(t.queue));
  }

  lemma {:induction false} IdStays(begun: ChatTurn, items: seq<StreamItem>, quota: Option<string>)
    requires |items| >= 1 && NoEnd(items) && items[0].Started? && forall i :: 0 < i < |items| ==> !items[i].Started?
    ensures ReduceAll(begun, FramesOf(items, quota)).id == Some(items[0].turn.id)
  {
    var frames := FramesOf(items, quota);
    var n := |items| - 1;
    assert frames[..n] == FramesOf(items[..n], quota);
    if n > 0 {
      IdStays(begun, items[..n], quota);
    }
  }

  lemma LiveKnowsItsId(begun: ChatTurn, queue: seq<StreamItem>, turn: Turn, final: Turn, quota: Option<string>)
    requires JustSent(begun) && Ends(queue, turn, final)
    ensures LiveTurn(begun, queue, quota).id == Some(turn.id)
  {
    ReadToTheEnd(begun, queue, turn, final, quota);
    IdStays(begun, queue[..|queue| - 2], quota);
  }

  // ------------------------------------------------------------------ at every prefix

  /** While every write is stored and no report is made inside a step, the whole stream keeps the
      discipline and its events are numbered upwards. */
  lemma StreamKeepsDiscipline(turn: Turn, nodes: seq<Node>, answer: Option<string>, c: Closing)
    requires Created(turn) && Clean(nodes) && AllStored(nodes) && ReportsBetweenSteps(nodes, false)
    ensures var q := RunTurn(turn, nodes, answer, c).state.trail.queue;
      PhaseOf(q) == Idle && Numbered(RecordedOf(q))
  {
    BeginQueue(turn);
    BeginKeeps(turn);
    BeginAccounted(turn);
    ExecInStep(Begin(turn), nodes);
    TurnSettled(turn, nodes, answer, c);
    WorkQueue(turn, nodes);
    FinishInStep(Exec(Begin(turn), nodes).state, turn, answer, ErrorAfter(Exec(Begin(turn), nodes).failure, answer), c);
  }

  lemma EmittedIdle(s: RunState, e: Event, w: Write)
    requires InStep(s.trail) && s.trail.open.None? && !e.StepEvent?
    ensures var t := Emitted(s.trail, e, w); InStep(t) && t.open.None?
  {
    if w.Stored? {
      EmitInStep(s.trail, e);
    }
  }

  lemma FinishInStep(s: RunState, turn: Turn, answer: Option<string>, error: Option<Event>, c: Closing)
    requires InStep(s.trail) && s.trail.open.None?
    requires error.Some? ==> error.value.ErrorEvent?
    ensures PhaseOf(Finish(s, turn, answer, error, c).state.trail.queue) == Idle
  {
    var told := TellError(s, error, c.errorWrite);
    if error.Some? {
      EmittedIdle(s, error.value, c.errorWrite);
    }
    if c.traceFails {
      PutPlain(told.trail.queue, EndOfStream);
    } else {
      var quoted := EmitQuota(told, c.quota);
      if c.quota.QuotaIs? {
        EmittedIdle(told, QuotaEvent(c.quota.body), c.quota.write);
      }
      var final := FinalTurn(turn, s.calls, answer, error, c);
      PutPlain(quoted.trail.queue, Terminal(final));
      PutPlain(quoted.trail.queue + [Terminal(final)], EndOfStream);
    }
  }

  /** At every prefix of such a turn's stream, starts are at most one ahead of recorded steps; the rows
      before the fetch merge are the recorded steps and one running row for the open step; and with
      the trailing events they hold every other event in order. */
  lemma EveryPrefixShowsItsSteps(turn: Turn, nodes: seq<Node>, answer: Option<string>, c: Closing, n: nat)
    requires Created(turn) && Clean(nodes) && AllStored(nodes) && ReportsBetweenSteps(nodes, false)
    requires n <= |RunTurn(turn, nodes, answer, c).state.trail.queue|
    ensures var seen := RunTurn(turn, nodes, answer, c).state.trail.queue[..n];
      var events := Unnumbered(RecordedOf(seen));
      && !PhaseOf(seen).Broken?
      && |StartsOf(seen)| - |RecordedSteps(seen)| == (if PhaseOf(seen).Inside? then 1 else 0)
      && LiveRows(seen) ==
           (if PhaseOf(seen).Inside? then
              Replay(events).rows + [RunningRow(|Replay(events).rows|, PhaseOf(seen).start, Replay(events).pending)]
            else Replay(events).rows)
      && OwnOf(LiveRows(seen)) + (if PhaseOf(seen).Inside? then [] else Replay(events).pending) == NonSteps(events)
  {
    var q := RunTurn(turn, nodes, answer, c).state.trail.queue;
    StreamKeepsDiscipline(turn, nodes, answer, c);
    LiveRowsGrow(q, n);
    StartsPairWithRecords(q[..n]);
    LiveRowsAre(q[..n]);
    LiveRowsKeepEvents(q[..n]);
  }

  /** From one prefix to the next rows are only added and finished rows never change. */
  lemma EveryPrefixGrows(turn: Turn, nodes: seq<Node>, answer: Option<string>, c: Closing, m: nat, n: nat)
    requires Created(turn) && Clean(nodes) && AllStored(nodes) && ReportsBetweenSteps(nodes, false)
    requires m <= n <= |RunTurn(turn, nodes, answer, c).state.trail.queue|
    ensures var q := RunTurn(turn, nodes, answer, c).state.trail.queue; Grows(LiveRows(q[..m]), LiveRows(q[..n]))
  {
    var q := RunTurn(turn, nodes, answer, c).state.trail.queue;
    StreamKeepsDiscipline(turn, nodes, answer, c);
    LiveRowsGrow(q, n);
    LiveRowsGrow(q[..n], m);
    assert q[..n][..m] == q[..m];
  }

  /** The need for that discipline: a report made inside an open step shows the reported step a second
      time as the one running, and the open step not at all. */
  lemma NestedReportShowsTheWrongStep(turn: Turn, outer: AgentStep, inner: AgentStep, at: int, then_: int)
    requires outer != inner
    ensures var t := Reported(Entered(Begin(turn).trail, outer, at), inner, Done, then_, 0, [], Stored);
      var rows := LiveRows(t.queue);
      && t.open.Some? && t.open.value.step == outer
      && |rows| == 2 && rows[0].step == inner && rows[0].state == RowDone
      && rows[1].step == inner && rows[1].state == Running
  {
    var entered := Entered(Begin(turn).trail, outer, at);
    BeginQueue(turn);
    StartSent(Begin(turn).trail, outer, at);
    StartSent(entered, inner, then_);
    var sent := entered.(queue := entered.queue + [StepStarted(inner, then_)]);
    var record := StepEvent(inner, Done, then_, 0);
    QueueAfterWrite(sent, [record], Stored);
    assert [] + [record] == [record];
    var t := Reported(entered, inner, Done, then_, 0, [], Stored);
    assert t == Batched(sent, [record], Stored);
    var log := [StoredEvent(1, record)];
    assert RecordedOf(t.queue) == log;
    assert StartsOf(t.queue) == [StepStart(outer, at), StepStart(inner, then_)];
    TrailEventsAre(log);
    assert Unnumbered(log) == [] + [record];
    ReplaySnoc([], record);
    var r := Replay(Unnumbered(log));
    assert r.rows == [StepRow(0, record, [])];
    var two := Rows(r.rows + [RunningRow(1, StartsOf(t.queue)[1], r.pending)], []);
    assert AddStarts(r, StartsOf(t.queue)) == AddStarts(two, StartsOf(t.queue)) == two.rows;
  }
}
