// The relay between a turn's queue and its client, and the client's fold of the frames into a turn.

module Conversation {
  import opened Basics
  import opened Events
  import opened TrailModel
  import opened Protocol

  // ------------------------------------------------------------------ the relay

  datatype Frame =
    | StartedFrame(id: string, at: int)
    | TokenFrame(text: string)
    | StepFrame(step: AgentStep, at: int)
    | EventFrame(number: int, event: Event)
    | CompletedFrame(turn: Turn, quota: Option<string>)
    | FailedFrame(turn: Turn, quota: Option<string>)

  /** What goes over the wire: frames, and comments that keep a quiet connection open. */
  datatype Wire = Sent(frame: Frame) | KeepAlive

  function FrameOf(item: StreamItem, quota: Option<string>): Frame
    requires !item.EndOfStream?
  {
    match item
    case Started(turn) => StartedFrame(turn.id, turn.startedAt)
    case Token(text) => TokenFrame(text)
    case StepStarted(step, at) => StepFrame(step, at)
    case Recorded(stored) => EventFrame(stored.number, stored.event)
    case Completed(turn) => CompletedFrame(turn, quota)
    case FailedTurn(turn) => FailedFrame(turn, quota)
  }

  predicate NoEnd(items: seq<StreamItem>) {
    forall i :: 0 <= i < |items| ==> !items[i].EndOfStream?
  }

  /** The items before the end marker, or all of them while it has not been put. */
  function UntilEnd(items: seq<StreamItem>): (r: seq<StreamItem>)
    ensures NoEnd(r) && r <= items && (|r| < |items| ==> items[|r|].EndOfStream?)
  {
    if items == [] || items[0].EndOfStream? then [] else [items[0]] + UntilEnd(items[1..])
  }

  function FramesOf(items: seq<StreamItem>, quota: Option<string>): (r: seq<Frame>)
    requires NoEnd(items)
    ensures |r| == |items| && forall i :: 0 <= i < |r| ==> r[i] == FrameOf(items[i], quota)
  {
    seq(|items|, i requires 0 <= i < |items| => FrameOf(items[i], quota))
  }

  function Quiet(n: nat): (r: seq<Wire>)
    ensures |r| == n && forall i :: 0 <= i < n ==> r[i] == KeepAlive
  {
    seq(n, _ => KeepAlive)
  }

  /** Every item's frame in order, each after the keep-alives of the time spent waiting for it. */
  function Paced(items: seq<StreamItem>, waits: seq<nat>, quota: Option<string>): seq<Wire>
    requires NoEnd(items) && |waits| >= |items|
  {
    if items == [] then []
    else
      var n := |items| - 1;
      Paced(items[..n], waits, quota) + Quiet(waits[n]) + [Sent(FrameOf(items[n], quota))]
  }

  function FramesIn(wire: seq<Wire>): seq<Frame> {
    if wire == [] then []
    else
      var init, last := wire[..|wire| - 1], wire[|wire| - 1];
      if last.Sent? then FramesIn(init) + [last.frame] else FramesIn(init)
  }

  lemma {:induction false} QuietCarriesNothing(wire: seq<Wire>, n: nat)
    ensures FramesIn(wire + Quiet(n)) == FramesIn(wire)
  {
    if n == 0 {
      assert wire + Quiet(0) == wire;
    } else {
      QuietCarriesNothing(wire, n - 1);
      assert (wire + Quiet(n))[..|wire| + n - 1] == wire + Quiet(n - 1);
    }
  }

  /** The relay adds, drops and reorders nothing, however long the stream is quiet in between. */
  lemma {:induction false} RelayKeepsOrder(items: seq<StreamItem>, waits: seq<nat>, quota: Option<string>)
    requires NoEnd(items) && |waits| >= |items|
    ensures FramesIn(Paced(items, waits, quota)) == FramesOf(items, quota)
  {
    if items != [] {
      var n := |items| - 1;
      RelayKeepsOrder(items[..n], waits, quota);
      var before := Paced(items[..n], waits, quota) + Quiet(waits[n]);
      QuietCarriesNothing(Paced(items[..n], waits, quota), waits[n]);
      assert Paced(items, waits, quota)[..|before|] == before;
    }
  }

  /** `turn_stream`: one item off the queue at a time until the end marker; a wait that times out sends
      a keep-alive and waits again. `waits[i]` is how often the wait for item i times out. */
  method Relay(items: seq<StreamItem>, waits: seq<nat>, quota: Option<string>) returns (wire: seq<Wire>)
    requires |waits| >= |items|
    ensures var sent := UntilEnd(items);
      wire == Paced(sent, waits, quota) + Quiet(if |sent| < |items| then waits[|sent|] else 0)
  {
    wire := [];
    ghost var sent := UntilEnd(items);
    var n := 0;
    while n < |items|
      invariant 0 <= n <= |sent|
      invariant wire == Paced(sent[..n], waits, quota)
    {
      ghost var before := wire;
      for w := 0 to waits[n]
        invariant wire == before + Quiet(w)
      {
        wire := wire + [KeepAlive];
      }
      if items[n].EndOfStream? {
        assert n == |sent| && sent[..n] == sent;
        return;
      }
      wire := wire + [Sent(FrameOf(items[n], quota))];
      assert sent[n] == items[n] && sent[..n + 1][..n] == sent[..n];
      n := n + 1;
    }
    assert sent[..n] == sent;
  }

  // ------------------------------------------------------------------ the client's turn

  datatype Shown = Streaming | ShownCompleted | ShownFailed | ShownRunning

  datatype ChatTurn = ChatTurn(
    key: string, id: Option<string>, input: string, chunks: seq<string>, status: Shown, turn: Option<Turn>,
    error: Option<string>, events: Option<seq<TrailEvent>>, starts: seq<StepStart>, live: bool, sentAt: int,
    quotaAfter: Option<string>)

  function OutputOf(t: ChatTurn): string {
    Concat(t.chunks)
  }

  function OutputText(turn: Turn): string {
    if turn.output.Some? then turn.output.value else ""
  }

  function ShownStatus(status: TurnStatus): Shown {
    match status
    case TurnRunning => ShownRunning
    case TurnCompleted => ShownCompleted
    case TurnFailed => ShownFailed
  }

  /** A turn as loaded from the server; its events come later. */
  function FromTurn(turn: Turn, live: bool): ChatTurn {
    ChatTurn(turn.id, Some(turn.id), turn.input, if OutputText(turn) != "" then [OutputText(turn)] else [],
             ShownStatus(turn.status), Some(turn), turn.errorCode, None, [], live, turn.startedAt, None)
  }

  function NewTurn(key: string, message: string, at: int): ChatTurn {
    ChatTurn(key, None, message, [], Streaming, None, None, Some([]), [], true, at, None)
  }

  function AddEventTo(t: ChatTurn, e: TrailEvent): ChatTurn {
    t.(events := Some((if t.events.Some? then t.events.value else []) + [e]))
  }

  function Finished(t: ChatTurn, turn: Turn, failed: bool, quota: Option<string>): ChatTurn {
    t.(status := if failed then ShownFailed else ShownCompleted,
       turn := Some(turn),
       chunks := if failed || Concat(t.chunks) == OutputText(turn) then t.chunks else [OutputText(turn)],
       error := if !failed then None
                else Some(if turn.errorCode.Some? then turn.errorCode.value else "This turn failed."),
       quotaAfter := quota)
  }

  /** The reducer inside `send`, one frame at a time. */
  function Reduce(t: ChatTurn, f: Frame): ChatTurn {
    match f
    case StartedFrame(id, at) => t.(id := Some(id), sentAt := at)
    case TokenFrame(text) => t.(chunks := t.chunks + [text])
    case StepFrame(step, at) => t.(starts := t.starts + [StepStart(step, at)])
    case EventFrame(number, event) => AddEventTo(t, TrailEvent(number, event))
    case CompletedFrame(turn, quota) => Finished(t, turn, false, quota)
    case FailedFrame(turn, quota) => Finished(t, turn, true, quota)
  }

  function ReduceAll(t: ChatTurn, frames: seq<Frame>): ChatTurn {
    if frames == [] then t else Reduce(ReduceAll(t, frames[..|frames| - 1]), frames[|frames| - 1])
  }

  predicate BeforeTerminal(items: seq<StreamItem>) {
    forall i :: 0 <= i < |items| ==> items[i].Started? || items[i].Token? || items[i].StepStarted? || items[i].Recorded?
  }

  /** The row holds exactly these texts, starts and events; the rest of it is as it began. */
  predicate Holds(u: ChatTurn, t: ChatTurn, texts: seq<string>, starts: seq<StepStart>, log: seq<StoredEvent>) {
    && u.chunks == texts && u.starts == starts && u.events == Some(AsTrail(log))
    && u.key == t.key && u.live == t.live && u.status == t.status && u.error == t.error && u.turn == t.turn
  }

  lemma HoldsMore(u: ChatTurn, t: ChatTurn, texts: seq<string>, starts: seq<StepStart>, log: seq<StoredEvent>,
                  item: StreamItem, quota: Option<string>)
    requires Holds(u, t, texts, starts, log)
    requires item.Started? || item.Token? || item.StepStarted? || item.Recorded?
    ensures Holds(Reduce(u, FrameOf(item, quota)), t,
                  if item.Token? then texts + [item.text] else texts,
                  if item.StepStarted? then starts + [StepStart(item.step, item.at)] else starts,
                  if item.Recorded? then log + [item.stored] else log)
  {
    if item.Recorded? {
      assert AsTrail(log + [item.stored]) == AsTrail(log) + [TrailEvent(item.stored.number, item.stored.event)];
    }
  }

  /** Before the terminal frame the client holds exactly what the stream said: the texts, the starts
      and the events, each in order. */
  lemma {:induction false} ClientHoldsTheStream(t: ChatTurn, items: seq<StreamItem>, quota: Option<string>)
    requires t.chunks == [] && t.starts == [] && t.events == Some([])
    requires NoEnd(items) && BeforeTerminal(items)
    ensures Holds(ReduceAll(t, FramesOf(items, quota)), t, TextsOf(items), StartsOf(items), RecordedOf(items))
  {
    var frames := FramesOf(items, quota);
    if |items| > 0 {
      var n := |items| - 1;
      ClientHoldsTheStream(t, items[..n], quota);
      assert frames[..n] == FramesOf(items[..n], quota);
      HoldsMore(ReduceAll(t, frames[..n]), t, TextsOf(items[..n]), StartsOf(items[..n]), RecordedOf(items[..n]),
                items[n], quota);
    }
  }

  predicate NoStarted(frames: seq<Frame>) {
    forall i :: 0 <= i < |frames| ==> !frames[i].StartedFrame?
  }

  predicate NoTerminal(frames: seq<Frame>) {
    forall i :: 0 <= i < |frames| ==> !frames[i].CompletedFrame? && !frames[i].FailedFrame?
  }

  /** A stream's first frame alone names the row and says when it was sent; no other frame before the last
      touches what the row was sent with. */
  lemma {:induction false} NamedByTheFirst(t: ChatTurn, id: string, at: int, frames: seq<Frame>)
    requires NoStarted(frames) && NoTerminal(frames)
    ensures var u := ReduceAll(t, [StartedFrame(id, at)] + frames);
      && u.id == Some(id) && u.sentAt == at && u.key == t.key && u.input == t.input && u.live == t.live
      && u.quotaAfter == t.quotaAfter
  {
    var all := [StartedFrame(id, at)] + frames;
    if frames == [] {
      assert all[..0] == [] && ReduceAll(t, all[..0]) == t;
    } else {
      var n := |frames| - 1;
      NamedByTheFirst(t, id, at, frames[..n]);
      assert all[..|all| - 1] == [StartedFrame(id, at)] + frames[..n];
    }
  }

  /** A completed turn shows its stored output, and shows it as the chunks that were streamed exactly
      when they add up to it: then nothing jumps at the end. */
  lemma CompletedShowsItsOutput(t: ChatTurn, turn: Turn, quota: Option<string>)
    ensures var done := Reduce(t, CompletedFrame(turn, quota));
      && OutputOf(done) == OutputText(turn)
      && (done.chunks == t.chunks || done.chunks == [OutputText(turn)])
      && (Concat(t.chunks) == OutputText(turn) ==> done.chunks == t.chunks)
      && (done.chunks == t.chunks ==> Concat(t.chunks) == OutputText(turn))
  {
    assert Concat([OutputText(turn)]) == OutputText(turn);
  }

  // ------------------------------------------------------------------ the conversation

  /** Everything that changes the list of turns. */
  datatype Action =
    | SendBegins(key: string, message: string, at: int)
    | FrameArrives(key: string, frame: Frame)
    | StreamBreaks(key: string, text: string)
    | HistoryArrives(page: seq<Turn>)
    | EarlierArrives(page: seq<Turn>)
    | TurnAdded(turn: Turn)
    | EventsArrive(id: string, events: seq<TrailEvent>)
    | EventsFail(id: string)

  /** What an action does to a row that is already there. */
  function Touch(t: ChatTurn, a: Action): ChatTurn {
    match a
    case FrameArrives(key, frame) => if t.key == key then Reduce(t, frame) else t
    case StreamBreaks(key, text) => if t.key == key then t.(status := ShownFailed, error := Some(text)) else t
    case EventsArrive(id, events) => if t.id == Some(id) then t.(events := Some(events)) else t
    case EventsFail(id) => if t.id == Some(id) && t.events.None? then t.(events := Some([])) else t
    case _ => t
  }

  function TouchRows(turns: seq<ChatTurn>, a: Action): (r: seq<ChatTurn>)
    ensures |r| == |turns| && forall i :: 0 <= i < |r| ==> r[i] == Touch(turns[i], a)
  {
    seq(|turns|, i requires 0 <= i < |turns| => Touch(turns[i], a))
  }

  /** A page is newest first; its turns are shown oldest first. */
  function PageRows(page: seq<Turn>): seq<ChatTurn> {
    if page == [] then [] else PageRows(page[1..]) + [FromTurn(page[0], false)]
  }

  predicate Knows(turns: seq<ChatTurn>, id: string) {
    exists i :: 0 <= i < |turns| && turns[i].id == Some(id)
  }

  function Unknown(page: seq<Turn>, turns: seq<ChatTurn>): seq<Turn> {
    if page == [] then []
    else if Knows(turns, page[0].id) then Unknown(page[1..], turns)
    else [page[0]] + Unknown(page[1..], turns)
  }

  function Apply(turns: seq<ChatTurn>, a: Action): seq<ChatTurn> {
    match a
    case SendBegins(key, message, at) => turns + [NewTurn(key, message, at)]
    case HistoryArrives(page) => PageRows(Unknown(page, turns)) + turns
    case EarlierArrives(page) => PageRows(page) + turns
    case TurnAdded(turn) => if Knows(turns, turn.id) then turns else turns + [FromTurn(turn, true)]
    case _ => TouchRows(turns, a)
  }

  /** The row is this stored turn, whole, with its events still to load. */
  predicate IsStored(row: ChatTurn, turn: Turn, live: bool) {
    && row.key == turn.id && row.id == Some(turn.id) && row.input == turn.input && row.turn == Some(turn)
    && OutputOf(row) == (if turn.output.Some? then turn.output.value else "")
    && row.status == (if turn.status.TurnCompleted? then ShownCompleted else if turn.status.TurnFailed? then ShownFailed
                      else ShownRunning)
    && row.error == turn.errorCode && row.events.None? && row.starts == [] && row.live == live
    && row.sentAt == turn.startedAt && row.quotaAfter.None?
  }

  lemma StoredRow(turn: Turn, live: bool)
    ensures IsStored(FromTurn(turn, live), turn, live)
  {
    assert Concat([OutputText(turn)]) == OutputText(turn);
  }

  lemma {:induction false} PageSnoc(page: seq<Turn>, turns: seq<ChatTurn>, turn: Turn)
    ensures PageRows(page + [turn]) == [FromTurn(turn, false)] + PageRows(page)
    ensures Unknown(page + [turn], turns) == Unknown(page, turns) + (if Knows(turns, turn.id) then [] else [turn])
  {
    if page == [] {
      assert page + [turn] == [turn];
    } else {
      assert (page + [turn])[1..] == page[1..] + [turn];
      PageSnoc(page[1..], turns, turn);
    }
  }

  lemma EarlierSnoc(turns: seq<ChatTurn>, page: seq<Turn>, turn: Turn)
    ensures PageRows(page + [turn]) + turns == [FromTurn(turn, false)] + (PageRows(page) + turns)
  {
    PageSnoc(page, turns, turn);
  }

  lemma HistorySnoc(turns: seq<ChatTurn>, page: seq<Turn>, turn: Turn)
    ensures Apply(turns, HistoryArrives(page + [turn])) ==
      (if Knows(turns, turn.id) then [] else [FromTurn(turn, false)]) + Apply(turns, HistoryArrives(page))
  {
    PageSnoc(page, turns, turn);
    if Knows(turns, turn.id) {
      assert Unknown(page, turns) + [] == Unknown(page, turns);
    } else {
      EarlierSnoc(turns, Unknown(page, turns), turn);
    }
  }

  /** A page goes before the rows there are, oldest turn first: a turn at its end, the oldest, goes before
      all the others as its stored row; but the first page, fetched while turns may be added, leaves out
      those that have a row. */
  lemma OneOlderTurn(turns: seq<ChatTurn>, page: seq<Turn>, turn: Turn) returns (row: ChatTurn)
    ensures IsStored(row, turn, false)
    ensures Apply(turns, HistoryArrives([])) == Apply(turns, EarlierArrives([])) == turns
    ensures Apply(turns, EarlierArrives(page + [turn])) == [row] + Apply(turns, EarlierArrives(page))
    ensures Apply(turns, HistoryArrives(page + [turn])) ==
      (if exists i :: 0 <= i < |turns| && turns[i].id == Some(turn.id) then [] else [row])
      + Apply(turns, HistoryArrives(page))
  {
    row := FromTurn(turn, false);
    StoredRow(turn, false);
    EarlierSnoc(turns, page, turn);
    HistorySnoc(turns, page, turn);
    assert Unknown([], turns) == [] && PageRows([]) + turns == turns;
  }

  /** A turn made elsewhere goes after the rows there are, as a live row with its events still to load,
      unless it has a row. */
  lemma OneTurnAdded(turns: seq<ChatTurn>, turn: Turn) returns (row: ChatTurn)
    ensures IsStored(row, turn, true)
    ensures Apply(turns, TurnAdded(turn)) ==
      if exists i :: 0 <= i < |turns| && turns[i].id == Some(turn.id) then turns else turns + [row]
  {
    row := FromTurn(turn, true);
    StoredRow(turn, true);
  }

  function ApplyAll(turns: seq<ChatTurn>, acts: seq<Action>): seq<ChatTurn> {
    if acts == [] then turns else Apply(ApplyAll(turns, acts[..|acts| - 1]), acts[|acts| - 1])
  }

  function TouchAll(t: ChatTurn, acts: seq<Action>): ChatTurn {
    if acts == [] then t else Touch(TouchAll(t, acts[..|acts| - 1]), acts[|acts| - 1])
  }

  function Find(turns: seq<ChatTurn>, key: string): seq<ChatTurn> {
    if turns == [] then []
    else
      var init, last := turns[..|turns| - 1], turns[|turns| - 1];
      if last.key == key then Find(init, key) + [last] else Find(init, key)
  }

  lemma {:induction false} FindConcat(a: seq<ChatTurn>, b: seq<ChatTurn>, key: string)
    ensures Find(a + b, key) == Find(a, key) + Find(b, key)
  {
    if b == [] {
      assert a + b == a;
    } else {
      FindConcat(a, b[..|b| - 1], key);
      assert (a + b)[..|a + b| - 1] == a + b[..|b| - 1];
    }
  }

  lemma {:induction false} FindTouched(turns: seq<ChatTurn>, a: Action, key: string)
    ensures Find(TouchRows(turns, a), key) == TouchRows(Find(turns, key), a)
  {
    if turns != [] {
      FindTouched(turns[..|turns| - 1], a, key);
      assert TouchRows(turns, a)[..|turns| - 1] == TouchRows(turns[..|turns| - 1], a);
    }
  }

  /** The action brings no row with this key. */
  predicate Foreign(a: Action, key: string) {
    match a
    case SendBegins(other, _, _) => other != key
    case HistoryArrives(page) => forall i :: 0 <= i < |page| ==> page[i].id != key
    case EarlierArrives(page) => forall i :: 0 <= i < |page| ==> page[i].id != key
    case TurnAdded(turn) => turn.id != key
    case _ => true
  }

  lemma {:induction false} PageHasNoKey(page: seq<Turn>, key: string)
    requires forall i :: 0 <= i < |page| ==> page[i].id != key
    ensures Find(PageRows(page), key) == []
  {
    if page != [] {
      PageHasNoKey(page[1..], key);
      FindConcat(PageRows(page[1..]), [FromTurn(page[0], false)], key);
      assert [FromTurn(page[0], false)][..0] == [];
    }
  }

  lemma {:induction false} UnknownIsPart(page: seq<Turn>, turns: seq<ChatTurn>)
    ensures forall i :: 0 <= i < |Unknown(page, turns)| ==> Unknown(page, turns)[i] in page
  {
    if page != [] {
      UnknownIsPart(page[1..], turns);
      assert page == [page[0]] + page[1..];
    }
  }

  lemma FindApplied(turns: seq<ChatTurn>, a: Action, key: string)
    requires Foreign(a, key)
    ensures Find(Apply(turns, a), key) == TouchRows(Find(turns, key), a)
  {
    var same := Find(turns, key);
    match a
    case SendBegins(other, message, at) =>
      FindConcat(turns, [NewTurn(other, message, at)], key);
      assert [NewTurn(other, message, at)][..0] == [];
      assert TouchRows(same, a) == same;
    case HistoryArrives(page) =>
      UnknownIsPart(page, turns);
      PageHasNoKey(Unknown(page, turns), key);
      FindConcat(PageRows(Unknown(page, turns)), turns, key);
      assert TouchRows(same, a) == same;
    case EarlierArrives(page) =>
      PageHasNoKey(page, key);
      FindConcat(PageRows(page), turns, key);
      assert TouchRows(same, a) == same;
    case TurnAdded(turn) =>
      FindConcat(turns, [FromTurn(turn, true)], key);
      assert [FromTurn(turn, true)][..0] == [];
      assert TouchRows(same, a) == same;
    case _ =>
      FindTouched(turns, a, key);
  }

  /** However a live turn's frames interleave with other sends, pages of history and loads of events,
      its row is there once and is what its own frames and its own events make of it. */
  lemma {:induction false} RowSurvivesEverything(turns: seq<ChatTurn>, acts: seq<Action>, key: string, mine: ChatTurn)
    requires Find(turns, key) == [mine]
    requires forall i :: 0 <= i < |acts| ==> Foreign(acts[i], key)
    ensures Find(ApplyAll(turns, acts), key) == [TouchAll(mine, acts)]
  {
    if acts != [] {
      var n := |acts| - 1;
      RowSurvivesEverything(turns, acts[..n], key, mine);
      FindApplied(ApplyAll(turns, acts[..n]), acts[n], key);
      assert TouchRows([TouchAll(mine, acts[..n])], acts[n]) == [TouchAll(mine, acts)];
    }
  }

  /** Loads of different turns' events may finish in any order. */
  lemma LoadsCommute(turns: seq<ChatTurn>, a: Action, b: Action)
    requires (a.EventsArrive? || a.EventsFail?) && (b.EventsArrive? || b.EventsFail?) && a.id != b.id
    ensures Apply(Apply(turns, a), b) == Apply(Apply(turns, b), a)
  {
  }

  function CountId(turns: seq<ChatTurn>, id: string): nat {
    if turns == [] then 0
    else CountId(turns[..|turns| - 1], id) + (if turns[|turns| - 1].id == Some(id) then 1 else 0)
  }

  // ------------------------------------------------------------------ one turn, shown twice

  predicate OnPage(page: seq<Turn>, id: string) {
    exists i :: 0 <= i < |page| && page[i].id == id
  }

  /** The action has a turn of this id to add. */
  predicate Brings(a: Action, id: string) {
    match a
    case HistoryArrives(page) => OnPage(page, id)
    case EarlierArrives(page) => OnPage(page, id)
    case TurnAdded(turn) => turn.id == id
    case _ => false
  }

  /** `loadEarlier` adds its page without looking at what is there. */
  predicate BringsAgain(a: Action, id: string) {
    a.EarlierArrives? && OnPage(a.page, id)
  }

  /** No row but a new one is given this id, and the rows that have it are not given another. */
  predicate NamesOthers(a: Action, key: string, id: string) {
    a.FrameArrives? && a.frame.StartedFrame? ==> a.key != key && a.key != id && a.frame.id != id
  }

  /** The rows of this id were loaded under it, or are the live one. */
  predicate OwnRows(turns: seq<ChatTurn>, key: string, id: string) {
    forall i :: 0 <= i < |turns| && turns[i].id == Some(id) ==> turns[i].key == key || turns[i].key == id
  }

  lemma {:induction false} CountConcat(a: seq<ChatTurn>, b: seq<ChatTurn>, id: string)
    ensures CountId(a + b, id) == CountId(a, id) + CountId(b, id)
  {
    if |b| == 0 {
      assert a + b == a;
    } else {
      CountConcat(a, b[..|b| - 1], id);
      assert (a + b)[..|a + b| - 1] == a + b[..|b| - 1];
    }
  }

  lemma CountOne(t: ChatTurn, id: string)
    ensures CountId([t], id) == if t.id == Some(id) then 1 else 0
  {
    assert [t][..0] == [];
  }

  lemma {:induction false} KnowsCounts(turns: seq<ChatTurn>, id: string)
    ensures Knows(turns, id) <==> CountId(turns, id) > 0
  {
    if |turns| > 0 {
      var n := |turns| - 1;
      KnowsCounts(turns[..n], id);
      if Knows(turns[..n], id) {
        var i :| 0 <= i < n && turns[..n][i].id == Some(id);
        assert turns[i].id == Some(id);
      }
      if Knows(turns, id) {
        var i :| 0 <= i < |turns| && turns[i].id == Some(id);
        assert i < n ==> turns[..n][i].id == Some(id);
      }
    }
  }

  lemma OnTail(page: seq<Turn>, id: string)
    requires |page| > 0
    ensures OnPage(page, id) <==> page[0].id == id || OnPage(page[1..], id)
  {
    if OnPage(page[1..], id) {
      var i :| 0 <= i < |page[1..]| && page[1..][i].id == id;
      assert page[i + 1].id == id;
    }
    if OnPage(page, id) {
      var i :| 0 <= i < |page| && page[i].id == id;
      assert i > 0 ==> page[1..][i - 1].id == id;
    }
  }

  lemma {:induction false} PageCounts(page: seq<Turn>, key: string, id: string)
    ensures CountId(PageRows(page), id) > 0 <==> OnPage(page, id)
    ensures OwnRows(PageRows(page), key, id)
  {
    if |page| > 0 {
      PageCounts(page[1..], key, id);
      OnTail(page, id);
      CountConcat(PageRows(page[1..]), [FromTurn(page[0], false)], id);
      CountOne(FromTurn(page[0], false), id);
    }
  }

  lemma {:induction false} UnknownHolds(page: seq<Turn>, turns: seq<ChatTurn>, id: string)
    ensures OnPage(Unknown(page, turns), id) <==> OnPage(page, id) && !Knows(turns, id)
  {
    if |page| > 0 {
      UnknownHolds(page[1..], turns, id);
      OnTail(page, id);
      if !Knows(turns, page[0].id) {
        assert Unknown(page, turns)[1..] == Unknown(page[1..], turns);
        OnTail(Unknown(page, turns), id);
      }
    }
  }

  lemma {:induction false} TouchedCounts(turns: seq<ChatTurn>, a: Action, id: string)
    requires forall i :: 0 <= i < |turns| ==> (Touch(turns[i], a).id == Some(id) <==> turns[i].id == Some(id))
    ensures CountId(TouchRows(turns, a), id) == CountId(turns, id)
  {
    if |turns| > 0 {
      TouchedCounts(turns[..|turns| - 1], a, id);
      assert TouchRows(turns, a)[..|turns| - 1] == TouchRows(turns[..|turns| - 1], a);
    }
  }

  lemma TouchKeepsId(t: ChatTurn, a: Action, key: string, id: string)
    requires NamesOthers(a, key, id) && (t.id == Some(id) ==> t.key == key || t.key == id)
    ensures Touch(t, a).id == Some(id) <==> t.id == Some(id)
    ensures Touch(t, a).key == t.key
  {
  }

  lemma PrependStep(turns: seq<ChatTurn>, page: seq<Turn>, key: string, id: string)
    requires OwnRows(turns, key, id)
    ensures OwnRows(PageRows(page) + turns, key, id)
    ensures CountId(PageRows(page) + turns, id) >= CountId(turns, id)
    ensures CountId(PageRows(page) + turns, id) > CountId(turns, id) <==> OnPage(page, id)
  {
    PageCounts(page, key, id);
    CountConcat(PageRows(page), turns, id);
  }

  lemma AppendStep(turns: seq<ChatTurn>, t: ChatTurn, key: string, id: string)
    requires OwnRows(turns, key, id) && (t.id == Some(id) ==> t.key == id)
    ensures OwnRows(turns + [t], key, id)
    ensures CountId(turns + [t], id) == CountId(turns, id) + (if t.id == Some(id) then 1 else 0)
  {
    CountConcat(turns, [t], id);
    CountOne(t, id);
  }

  lemma TouchStep(turns: seq<ChatTurn>, a: Action, key: string, id: string)
    requires OwnRows(turns, key, id) && NamesOthers(a, key, id)
    ensures OwnRows(TouchRows(turns, a), key, id)
    ensures CountId(TouchRows(turns, a), id) == CountId(turns, id)
  {
    forall i | 0 <= i < |turns|
      ensures Touch(turns[i], a).key == turns[i].key
          && (Touch(turns[i], a).id == Some(id) <==> turns[i].id == Some(id)) {
      TouchKeepsId(turns[i], a, key, id);
    }
    TouchedCounts(turns, a, id);
  }

  predicate GrowsCount(turns: seq<ChatTurn>, a: Action, id: string) {
    BringsAgain(a, id) || (Brings(a, id) && CountId(turns, id) == 0)
  }

  /** One action: the count grows when the action brings the turn and the list has it not, or when
      `loadEarlier` brings it; otherwise it stays. */
  lemma CountStep(turns: seq<ChatTurn>, a: Action, key: string, id: string)
    requires OwnRows(turns, key, id) && NamesOthers(a, key, id)
    ensures OwnRows(Apply(turns, a), key, id)
    ensures CountId(Apply(turns, a), id) >= CountId(turns, id)
    ensures CountId(Apply(turns, a), id) > CountId(turns, id) <==> GrowsCount(turns, a, id)
  {
    match a
    case SendBegins(other, message, at) =>
      AppendStep(turns, NewTurn(other, message, at), key, id);
    case HistoryArrives(page) =>
      KnowsCounts(turns, id);
      UnknownHolds(page, turns, id);
      PrependStep(turns, Unknown(page, turns), key, id);
    case EarlierArrives(page) =>
      PrependStep(turns, page, key, id);
    case TurnAdded(turn) =>
      KnowsCounts(turns, id);
      AppendStep(turns, FromTurn(turn, true), key, id);
    case FrameArrives(_, _) => TouchStep(turns, a, key, id);
    case StreamBreaks(_, _) => TouchStep(turns, a, key, id);
    case EventsArrive(_, _) => TouchStep(turns, a, key, id);
    case EventsFail(_) => TouchStep(turns, a, key, id);
  }

  lemma {:induction false} NamedCounts(turns: seq<ChatTurn>, key: string, id: string, at: int)
    ensures CountId(TouchRows(turns, FrameArrives(key, StartedFrame(id, at))), id)
         == CountId(turns, id) + |Find(turns, key)| - CountId(Find(turns, key), id)
  {
    var named := FrameArrives(key, StartedFrame(id, at));
    if |turns| > 0 {
      var init, last := turns[..|turns| - 1], turns[|turns| - 1];
      NamedCounts(init, key, id, at);
      assert TouchRows(turns, named)[..|turns| - 1] == TouchRows(init, named);
      CountConcat(Find(init, key), [last], id);
      CountOne(last, id);
    }
  }

  predicate NoneBrings(acts: seq<Action>, id: string) {
    forall i :: 0 <= i < |acts| ==> !Brings(acts[i], id)
  }

  predicate NoneBringsAgain(acts: seq<Action>, id: string) {
    forall i :: 0 <= i < |acts| ==> !BringsAgain(acts[i], id)
  }

  predicate AllNameOthers(acts: seq<Action>, key: string, id: string) {
    forall i :: 0 <= i < |acts| ==> NamesOthers(acts[i], key, id)
  }

  /** Before the live row has its id the turn is in the list exactly when something brought it. */
  lemma {:induction false} CountBeforeNaming(turns: seq<ChatTurn>, acts: seq<Action>, key: string, id: string)
    requires CountId(turns, id) == 0 && OwnRows(turns, key, id) && AllNameOthers(acts, key, id)
    ensures OwnRows(ApplyAll(turns, acts), key, id)
    ensures CountId(ApplyAll(turns, acts), id) == 0 <==> NoneBrings(acts, id)
  {
    if |acts| > 0 {
      var n := |acts| - 1;
      CountBeforeNaming(turns, acts[..n], key, id);
      CountStep(ApplyAll(turns, acts[..n]), acts[n], key, id);
      assert acts == acts[..n] + [acts[n]];
      assert NoneBrings(acts, id) <==> NoneBrings(acts[..n], id) && !Brings(acts[n], id);
    }
  }

  /** Once some row has the id only `loadEarlier` adds another. */
  lemma {:induction false} CountAfterNaming(turns: seq<ChatTurn>, acts: seq<Action>, key: string, id: string)
    requires CountId(turns, id) > 0 && OwnRows(turns, key, id) && AllNameOthers(acts, key, id)
    ensures OwnRows(ApplyAll(turns, acts), key, id)
    ensures CountId(ApplyAll(turns, acts), id) >= CountId(turns, id)
    ensures CountId(ApplyAll(turns, acts), id) == CountId(turns, id) <==> NoneBringsAgain(acts, id)
  {
    if |acts| > 0 {
      var n := |acts| - 1;
      CountAfterNaming(turns, acts[..n], key, id);
      CountStep(ApplyAll(turns, acts[..n]), acts[n], key, id);
      assert acts == acts[..n] + [acts[n]];
      assert NoneBringsAgain(acts, id) <==> NoneBringsAgain(acts[..n], id) && !BringsAgain(acts[n], id);
    }
  }

  lemma {:induction false} StaysUnnamed(mine: ChatTurn, acts: seq<Action>, id: string)
    requires mine.id.None? && AllNameOthers(acts, mine.key, id)
    ensures TouchAll(mine, acts).id.None? && TouchAll(mine, acts).key == mine.key
  {
    if |acts| > 0 {
      StaysUnnamed(mine, acts[..|acts| - 1], id);
    }
  }

  lemma NamingCounts(turns: seq<ChatTurn>, mine: ChatTurn, key: string, id: string, at: int)
    requires Find(turns, key) == [mine] && mine.id.None? && OwnRows(turns, key, id)
    ensures var named := Apply(turns, FrameArrives(key, StartedFrame(id, at)));
      CountId(named, id) == CountId(turns, id) + 1 && OwnRows(named, key, id)
  {
    NamedCounts(turns, key, id, at);
    CountOne(mine, id);
  }

  /** A live turn is shown once exactly when nothing had brought it to the list before its first frame
      gave its row the id, and no earlier page brings it afterwards: for any list, any pages and
      anything else that happens before and after that frame. */
  lemma HistoryRace(turns: seq<ChatTurn>, mine: ChatTurn, key: string, id: string, at: int,
                    before: seq<Action>, after: seq<Action>)
    requires Find(turns, key) == [mine] && mine.key == key && mine.id.None? && CountId(turns, id) == 0
    requires AllNameOthers(before, key, id) && AllNameOthers(after, key, id)
    requires forall i :: 0 <= i < |before| ==> Foreign(before[i], key)
    ensures var shown := ApplyAll(turns, before + [FrameArrives(key, StartedFrame(id, at))] + after);
      && CountId(shown, id) >= 1
      && (CountId(shown, id) == 1 <==> NoneBrings(before, id) && NoneBringsAgain(after, id))
  {
    KnowsCounts(turns, id);
    assert OwnRows(turns, key, id);
    CountBeforeNaming(turns, before, key, id);
    RowSurvivesEverything(turns, before, key, mine);
    StaysUnnamed(mine, before, id);
    NamingCounts(ApplyAll(turns, before), TouchAll(mine, before), key, id, at);
    ApplySnoc(turns, before, FrameArrives(key, StartedFrame(id, at)));
    CountAfterNaming(ApplyAll(turns, before + [FrameArrives(key, StartedFrame(id, at))]), after, key, id);
    ApplyConcat(turns, before + [FrameArrives(key, StartedFrame(id, at))], after);
  }

  // ------------------------------------------------------------------ loads while the turn is live

  /** The frames of one row's stream among everything that happens, in order. */
  function FramesFor(acts: seq<Action>, key: string): seq<Frame> {
    if acts == [] then []
    else
      var init, last := acts[..|acts| - 1], acts[|acts| - 1];
      if last.FrameArrives? && last.key == key then FramesFor(init, key) + [last.frame] else FramesFor(init, key)
  }

  function EventsIn(frames: seq<Frame>): seq<TrailEvent> {
    if frames == [] then []
    else
      var init, last := frames[..|frames| - 1], frames[|frames| - 1];
      if last.EventFrame? then EventsIn(init) + [TrailEvent(last.number, last.event)] else EventsIn(init)
  }

  /** The i-th action loads the stored events of this row. */
  predicate LoadsInto(mine: ChatTurn, acts: seq<Action>, i: nat)
    requires i < |acts|
  {
    acts[i].EventsArrive? && TouchAll(mine, acts[..i]).id == Some(acts[i].id)
  }

  predicate NoLoad(mine: ChatTurn, acts: seq<Action>) {
    forall i :: 0 <= i < |acts| ==> !LoadsInto(mine, acts, i)
  }

  predicate LastLoad(mine: ChatTurn, acts: seq<Action>, i: nat)
    requires i < |acts|
  {
    LoadsInto(mine, acts, i) && forall j :: i < j < |acts| ==> !LoadsInto(mine, acts, j)
  }

  predicate Unbroken(acts: seq<Action>, key: string) {
    forall i :: 0 <= i < |acts| ==> !(acts[i].StreamBreaks? && acts[i].key == key)
  }

  lemma {:induction false} FramesForConcat(a: seq<Action>, b: seq<Action>, key: string)
    ensures FramesFor(a + b, key) == FramesFor(a, key) + FramesFor(b, key)
  {
    if |b| == 0 {
      assert a + b == a;
    } else {
      FramesForConcat(a, b[..|b| - 1], key);
      assert (a + b)[..|a + b| - 1] == a + b[..|b| - 1];
    }
  }

  lemma {:induction false} EventsInConcat(a: seq<Frame>, b: seq<Frame>)
    ensures EventsIn(a + b) == EventsIn(a) + EventsIn(b)
  {
    if |b| == 0 {
      assert a + b == a;
    } else {
      EventsInConcat(a, b[..|b| - 1]);
      assert (a + b)[..|a + b| - 1] == a + b[..|b| - 1];
    }
  }

  /** The events a row holds after one more action. */
  function NextEvents(t: ChatTurn, events: seq<TrailEvent>, a: Action): seq<TrailEvent> {
    if a.FrameArrives? && a.key == t.key && a.frame.EventFrame? then
      events + [TrailEvent(a.frame.number, a.frame.event)]
    else if a.EventsArrive? && t.id == Some(a.id) then a.events
    else events
  }

  function EventsAfter(mine: ChatTurn, acts: seq<Action>): seq<TrailEvent> {
    if acts == [] then []
    else
      var init, last := acts[..|acts| - 1], acts[|acts| - 1];
      NextEvents(TouchAll(mine, init), EventsAfter(mine, init), last)
  }

  /** What a row's own stream and the loads make of it: the fold of its frames, with these events. */
  function RowOf(mine: ChatTurn, acts: seq<Action>, events: seq<TrailEvent>): ChatTurn {
    ReduceAll(mine, FramesFor(acts, mine.key)).(events := Some(events))
  }

  /** The row apart from its events does not depend on them. */
  lemma FrameTouch(t: ChatTurn, events: seq<TrailEvent>, a: Action)
    requires a.FrameArrives? && a.key == t.key
    ensures Touch(t.(events := Some(events)), a)
         == Reduce(t, a.frame).(events := Some(NextEvents(t.(events := Some(events)), events, a)))
    ensures Reduce(t, a.frame).key == t.key
  {
  }

  lemma OtherTouch(t: ChatTurn, events: seq<TrailEvent>, a: Action)
    requires !(a.FrameArrives? && a.key == t.key) && !(a.StreamBreaks? && a.key == t.key)
    ensures Touch(t.(events := Some(events)), a)
         == t.(events := Some(NextEvents(t.(events := Some(events)), events, a)))
  {
  }

  /** Until its stream breaks the row is the fold of its frames, with the events that frames and loads
      left it. */
  lemma {:induction false} RowIsItsFrames(mine: ChatTurn, acts: seq<Action>)
    requires mine.events == Some([]) && Unbroken(acts, mine.key)
    ensures TouchAll(mine, acts) == RowOf(mine, acts, EventsAfter(mine, acts))
    ensures ReduceAll(mine, FramesFor(acts, mine.key)).key == mine.key
  {
    if |acts| > 0 {
      var n := |acts| - 1;
      RowIsItsFrames(mine, acts[..n]);
      var frames := FramesFor(acts[..n], mine.key);
      var t := ReduceAll(mine, frames);
      if acts[n].FrameArrives? && acts[n].key == mine.key {
        assert (frames + [acts[n].frame])[..|frames|] == frames;
        FrameTouch(t, EventsAfter(mine, acts[..n]), acts[n]);
      } else {
        OtherTouch(t, EventsAfter(mine, acts[..n]), acts[n]);
      }
    }
  }

  lemma {:induction false} TouchKeepsKey(mine: ChatTurn, acts: seq<Action>)
    ensures TouchAll(mine, acts).key == mine.key
  {
    if |acts| > 0 {
      TouchKeepsKey(mine, acts[..|acts| - 1]);
    }
  }

  lemma LoadsBefore(mine: ChatTurn, acts: seq<Action>, n: nat)
    requires n <= |acts|
    ensures forall i :: 0 <= i < n ==> (LoadsInto(mine, acts[..n], i) <==> LoadsInto(mine, acts, i))
  {
    forall i | 0 <= i < n ensures LoadsInto(mine, acts[..n], i) <==> LoadsInto(mine, acts, i) {
      assert acts[..n][..i] == acts[..i];
    }
  }

  /** The events that one action's frame brings this row. */
  function OwnEvents(a: Action, key: string): seq<TrailEvent> {
    if a.FrameArrives? && a.key == key && a.frame.EventFrame? then [TrailEvent(a.frame.number, a.frame.event)] else []
  }

  lemma OneMoreFrame(acts: seq<Action>, a: Action, key: string)
    ensures EventsIn(FramesFor(acts + [a], key)) == EventsIn(FramesFor(acts, key)) + OwnEvents(a, key)
  {
    assert (acts + [a])[..|acts|] == acts;
    if a.FrameArrives? && a.key == key {
      var frames := FramesFor(acts, key);
      assert (frames + [a.frame])[..|frames|] == frames;
    }
  }

  lemma EventsSnoc(mine: ChatTurn, acts: seq<Action>, a: Action)
    ensures EventsAfter(mine, acts + [a]) == NextEvents(TouchAll(mine, acts), EventsAfter(mine, acts), a)
  {
    assert (acts + [a])[..|acts|] == acts;
  }

  /** An action that loads nothing adds at most its own frame's event. */
  lemma EventsGrow(mine: ChatTurn, acts: seq<Action>, a: Action)
    requires !(a.EventsArrive? && TouchAll(mine, acts).id == Some(a.id))
    ensures EventsAfter(mine, acts + [a]) == EventsAfter(mine, acts) + OwnEvents(a, mine.key)
  {
    EventsSnoc(mine, acts, a);
    TouchKeepsKey(mine, acts);
  }

  lemma {:induction false} EventsWithoutLoads(mine: ChatTurn, acts: seq<Action>)
    requires NoLoad(mine, acts)
    ensures EventsAfter(mine, acts) == EventsIn(FramesFor(acts, mine.key))
  {
    if |acts| > 0 {
      var n := |acts| - 1;
      LoadsBefore(mine, acts, n);
      EventsWithoutLoads(mine, acts[..n]);
      assert acts == acts[..n] + [acts[n]];
      assert !LoadsInto(mine, acts, n);
      EventsGrow(mine, acts[..n], acts[n]);
      OneMoreFrame(acts[..n], acts[n], mine.key);
    }
  }

  /** None of the later actions loads into the row. */
  predicate NoLoadIn(mine: ChatTurn, acts: seq<Action>, later: seq<Action>) {
    forall j :: 0 <= j < |later| ==>
      !(later[j].EventsArrive? && TouchAll(mine, acts + later[..j]).id == Some(later[j].id))
  }

  lemma NoLoadInPrefix(mine: ChatTurn, acts: seq<Action>, later: seq<Action>, n: nat)
    requires n < |later| && NoLoadIn(mine, acts, later)
    ensures NoLoadIn(mine, acts, later[..n])
    ensures !(later[n].EventsArrive? && TouchAll(mine, acts + later[..n]).id == Some(later[n].id))
  {
    forall j | 0 <= j < n ensures later[..n][..j] == later[..j] {
    }
  }

  lemma OneMoreAfterLoad(mine: ChatTurn, acts: seq<Action>, later: seq<Action>, a: Action, events: seq<TrailEvent>)
    requires EventsAfter(mine, acts + later) == events + EventsIn(FramesFor(later, mine.key))
    requires !(a.EventsArrive? && TouchAll(mine, acts + later).id == Some(a.id))
    ensures EventsAfter(mine, acts + (later + [a])) == events + EventsIn(FramesFor(later + [a], mine.key))
  {
    assert acts + (later + [a]) == (acts + later) + [a];
    EventsGrow(mine, acts + later, a);
    OneMoreFrame(later, a, mine.key);
  }

  /** After a last load the row holds what was loaded and the events whose frames came after it. */
  lemma {:induction false} EventsAfterLoad(mine: ChatTurn, acts: seq<Action>, later: seq<Action>,
                                           events: seq<TrailEvent>)
    requires EventsAfter(mine, acts) == events && NoLoadIn(mine, acts, later)
    ensures EventsAfter(mine, acts + later) == events + EventsIn(FramesFor(later, mine.key))
  {
    if |later| == 0 {
      assert acts + later == acts && events + [] == events;
    } else {
      var n := |later| - 1;
      NoLoadInPrefix(mine, acts, later, n);
      EventsAfterLoad(mine, acts, later[..n], events);
      assert later == later[..n] + [later[n]];
      OneMoreAfterLoad(mine, acts, later[..n], later[n], events);
    }
  }

  lemma SplitAtLoad(mine: ChatTurn, acts: seq<Action>, i: nat)
    requires i < |acts| && LastLoad(mine, acts, i)
    ensures acts == acts[..i] + [acts[i]] + acts[i + 1..] && NoLoadIn(mine, acts[..i] + [acts[i]], acts[i + 1..])
  {
    var later := acts[i + 1..];
    forall j | 0 <= j < |later|
      ensures !(later[j].EventsArrive? && TouchAll(mine, acts[..i] + [acts[i]] + later[..j]).id == Some(later[j].id)) {
      assert acts[..i + 1 + j] == acts[..i] + [acts[i]] + later[..j];
      assert !LoadsInto(mine, acts, i + 1 + j);
    }
  }

  /** Loads into a live turn: its events are exactly those of its frames when nothing was loaded, and
      otherwise exactly when the last load held just the events whose frames had arrived by then. A load
      that held more shows those events twice, one that held fewer loses some. */
  lemma LoadsIntoALiveTurn(mine: ChatTurn, acts: seq<Action>)
    requires mine.events == Some([]) && Unbroken(acts, mine.key)
    ensures NoLoad(mine, acts) ==> TouchAll(mine, acts) == RowOf(mine, acts, EventsIn(FramesFor(acts, mine.key)))
    ensures forall i :: 0 <= i < |acts| && LastLoad(mine, acts, i) ==>
      && TouchAll(mine, acts) == RowOf(mine, acts, acts[i].events + EventsIn(FramesFor(acts[i + 1..], mine.key)))
      && (TouchAll(mine, acts).events == Some(EventsIn(FramesFor(acts, mine.key)))
          <==> acts[i].events == EventsIn(FramesFor(acts[..i], mine.key)))
  {
    RowIsItsFrames(mine, acts);
    if NoLoad(mine, acts) {
      EventsWithoutLoads(mine, acts);
    }
    forall i | 0 <= i < |acts| && LastLoad(mine, acts, i)
      ensures EventsAfter(mine, acts) == acts[i].events + EventsIn(FramesFor(acts[i + 1..], mine.key))
      ensures EventsAfter(mine, acts) == EventsIn(FramesFor(acts, mine.key))
        <==> acts[i].events == EventsIn(FramesFor(acts[..i], mine.key)) {
      SplitAtLoad(mine, acts, i);
      EventsSnoc(mine, acts[..i], acts[i]);
      EventsAfterLoad(mine, acts[..i] + [acts[i]], acts[i + 1..], acts[i].events);
      AroundTheLoad(acts, i, mine.key);
      SameBefore(acts[i].events, EventsIn(FramesFor(acts[..i], mine.key)),
          EventsIn(FramesFor(acts[i + 1..], mine.key)));
    }
  }

  lemma {:induction false} FoldHoldsEvents(t: ChatTurn, frames: seq<Frame>)
    requires t.events == Some([])
    ensures ReduceAll(t, frames).events == Some(EventsIn(frames))
  {
    if |frames| > 0 {
      FoldHoldsEvents(t, frames[..|frames| - 1]);
    }
  }

  lemma AroundTheLoad(acts: seq<Action>, i: nat, key: string)
    requires i < |acts| && !acts[i].FrameArrives?
    ensures EventsIn(FramesFor(acts, key))
        == EventsIn(FramesFor(acts[..i], key)) + EventsIn(FramesFor(acts[i + 1..], key))
  {
    assert acts == (acts[..i] + [acts[i]]) + acts[i + 1..];
    FramesForConcat(acts[..i] + [acts[i]], acts[i + 1..], key);
    assert (acts[..i] + [acts[i]])[..i] == acts[..i];
    EventsInConcat(FramesFor(acts[..i], key), FramesFor(acts[i + 1..], key));
  }

  lemma SameBefore(a: seq<TrailEvent>, b: seq<TrailEvent>, rest: seq<TrailEvent>)
    ensures a + rest == b + rest <==> a == b
  {
    if a + rest == b + rest {
      assert |a| == |b|;
      assert a == (a + rest)[..|a|] && b == (b + rest)[..|b|];
    }
  }

  // ------------------------------------------------------------------ the hook's state

  function SendActions(key: string, message: string, at: int, frames: seq<Frame>, broke: Option<string>): seq<Action> {
    [SendBegins(key, message, at)] + FrameActions(key, frames) +
    (if broke.Some? then [StreamBreaks(key, broke.value)] else [])
  }

  function FrameActions(key: string, frames: seq<Frame>): (r: seq<Action>)
    ensures |r| == |frames| && forall i :: 0 <= i < |r| ==> r[i] == FrameArrives(key, frames[i])
  {
    seq(|frames|, i requires 0 <= i < |frames| => FrameArrives(key, frames[i]))
  }

  lemma ApplySnoc(turns: seq<ChatTurn>, acts: seq<Action>, a: Action)
    ensures ApplyAll(turns, acts + [a]) == Apply(ApplyAll(turns, acts), a)
  {
    assert (acts + [a])[..|acts|] == acts;
  }

  lemma {:induction false} ApplyConcat(turns: seq<ChatTurn>, a: seq<Action>, b: seq<Action>)
    ensures ApplyAll(turns, a + b) == ApplyAll(ApplyAll(turns, a), b)
  {
    if |b| == 0 {
      assert a + b == a;
    } else {
      var n := |b| - 1;
      ApplyConcat(turns, a, b[..n]);
      assert a + b == (a + b[..n]) + [b[n]];
      ApplySnoc(turns, a + b[..n], b[n]);
    }
  }

  lemma {:induction false} FramesTouch(t: ChatTurn, key: string, frames: seq<Frame>)
    requires t.key == key
    ensures TouchAll(t, FrameActions(key, frames)) == ReduceAll(t, frames) && ReduceAll(t, frames).key == key
  {
    if |frames| > 0 {
      var n := |frames| - 1;
      FramesTouch(t, key, frames[..n]);
      assert FrameActions(key, frames)[..n] == FrameActions(key, frames[..n]);
    }
  }

  /** A send under a new key leaves one row with that key, the fold of its frames. */
  lemma SendShowsItsFrames(turns: seq<ChatTurn>, key: string, message: string, at: int, frames: seq<Frame>)
    requires Find(turns, key) == []
    ensures Find(ApplyAll(turns, SendActions(key, message, at, frames, None)), key)
         == [ReduceAll(NewTurn(key, message, at), frames)]
  {
    var mine, begins := NewTurn(key, message, at), [SendBegins(key, message, at)];
    ApplySnoc(turns, [], begins[0]);
    assert [] + begins == begins;
    FindConcat(turns, [mine], key);
    assert [mine][..0] == [];
    assert Find([mine], key) == [mine];
    RowSurvivesEverything(turns + [mine], FrameActions(key, frames), key, mine);
    FramesTouch(mine, key, frames);
    ApplyConcat(turns, begins, FrameActions(key, frames));
    assert SendActions(key, message, at, frames, None) == begins + FrameActions(key, frames);
  }

  /** When the stream breaks after these frames, that row keeps what they brought and fails with the error's
      text. */
  lemma BrokenSendFails(turns: seq<ChatTurn>, key: string, message: string, at: int, frames: seq<Frame>, text: string)
    requires Find(turns, key) == []
    ensures Find(ApplyAll(turns, SendActions(key, message, at, frames, Some(text))), key)
         == [ReduceAll(NewTurn(key, message, at), frames).(status := ShownFailed, error := Some(text))]
  {
    var whole, last := SendActions(key, message, at, frames, None), StreamBreaks(key, text);
    var mine := NewTurn(key, message, at);
    SendShowsItsFrames(turns, key, message, at, frames);
    FramesTouch(mine, key, frames);
    TouchKeepsKey(mine, FrameActions(key, frames));
    assert SendActions(key, message, at, frames, Some(text)) == whole + [last];
    ApplySnoc(turns, whole, last);
    FindApplied(ApplyAll(turns, whole), last, key);
  }

  class Hook {
    var turns: seq<ChatTurn>
    var sending: bool

    constructor ()
      ensures turns == [] && !sending
    {
      turns, sending := [], false;
    }

    /** `patch`: rows that match are changed, the others stay. */
    method Patch(a: Action)
      modifies this`turns
      ensures turns == TouchRows(old(turns), a)
    {
      var next: seq<ChatTurn> := [];
      for i := 0 to |turns|
        invariant turns == old(turns)
        invariant next == TouchRows(turns, a)[..i]
      {
        next := next + [Touch(turns[i], a)];
      }
      turns := next;
    }

    /** `send`: a new row, then each frame as it arrives; a stream that breaks fails the row. */
    method Send(key: string, message: string, at: int, frames: seq<Frame>, broke: Option<string>)
      modifies this
      ensures turns == ApplyAll(old(turns), SendActions(key, message, at, frames, broke)) && !sending
    {
      turns := turns + [NewTurn(key, message, at)];
      sending := true;
      ghost var begun := [SendBegins(key, message, at)];
      ApplySnoc(old(turns), [], begun[0]);
      assert [] + begun == begun;
      for i := 0 to |frames|
        invariant turns == ApplyAll(old(turns), begun + FrameActions(key, frames)[..i])
      {
        Patch(FrameArrives(key, frames[i]));
        ApplySnoc(old(turns), begun + FrameActions(key, frames)[..i], FrameArrives(key, frames[i]));
        assert begun + FrameActions(key, frames)[..i + 1]
            == begun + FrameActions(key, frames)[..i] + [FrameArrives(key, frames[i])];
      }
      ghost var acts := begun + FrameActions(key, frames);
      assert FrameActions(key, frames)[..|frames|] == FrameActions(key, frames) && acts + [] == acts;
      if broke.Some? {
        Patch(StreamBreaks(key, broke.value));
        ApplySnoc(old(turns), acts, StreamBreaks(key, broke.value));
      }
      sending := false;
    }

    method MergeHistory(page: seq<Turn>)
      modifies this`turns
      ensures turns == Apply(old(turns), HistoryArrives(page))
    {
      var kept: seq<Turn> := [];
      for i := |page| downto 0
        invariant turns == old(turns)
        invariant kept == Unknown(page[i..], turns)
      {
        assert page[i..][1..] == page[i + 1..];
        if !Knows(turns, page[i].id) {
          kept := [page[i]] + kept;
        }
      }
      assert page[0..] == page;
      turns := PageRows(kept) + turns;
    }

    method AddTurn(turn: Turn)
      modifies this`turns
      ensures turns == Apply(old(turns), TurnAdded(turn))
    {
      if !Knows(turns, turn.id) {
        turns := turns + [FromTurn(turn, true)];
      }
    }

    /** `loadEvents`: each id off the queue, its answer patched in; the answers come in any order. */
    method LoadEvents(answers: seq<Action>)
      requires forall i :: 0 <= i < |answers| ==> answers[i].EventsArrive? || answers[i].EventsFail?
      modifies this`turns
      ensures turns == ApplyAll(old(turns), answers)
    {
      for i := 0 to |answers|
        invariant turns == ApplyAll(old(turns), answers[..i])
      {
        Patch(answers[i]);
        ApplySnoc(old(turns), answers[..i], answers[i]);
        assert answers[..i + 1] == answers[..i] + [answers[i]];
      }
      assert answers[..|answers|] == answers;
    }
  }
}
