// The turn graph: intent routes to ingest, recall, correct or answer, and every turn ends with the
// trigger check. Reply text leaves through the same queue as the steps.

module TurnGraph {
  import opened Basics
  import opened Events
  import opened Protocol
  import opened TurnTrail
  import opened TurnRunner
  import opened TurnLifecycle
  import opened TurnRun

  // ------------------------------------------------------------------ cutting a reply into pieces

  function SpaceEnd(s: string): (n: nat)
    ensures n <= |s|
    ensures forall i :: 0 <= i < n ==> IsSpace(s[i])
    ensures n < |s| ==> !IsSpace(s[n])
  {
    if s != [] && IsSpace(s[0]) then 1 + SpaceEnd(s[1..]) else 0
  }

  function WordEnd(s: string): (n: nat)
    ensures n <= |s|
    ensures forall i :: 0 <= i < n ==> !IsSpace(s[i])
    ensures n < |s| ==> IsSpace(s[n])
  {
    if s != [] && !IsSpace(s[0]) then 1 + WordEnd(s[1..]) else 0
  }

  /** The length of the first match of `\S+\s*|\s+`. */
  function FirstPiece(s: string): (n: nat)
    requires s != []
    ensures 0 < n <= |s|
    ensures n < |s| ==> !IsSpace(s[n]) && IsSpace(s[n - 1])
  {
    if IsSpace(s[0]) then SpaceEnd(s)
    else
      var w := WordEnd(s);
      w + SpaceEnd(s[w..])
  }

  function Pieces(s: string): seq<string>
    decreases |s|
  {
    if s == [] then [] else [s[..FirstPiece(s)]] + Pieces(s[FirstPiece(s)..])
  }

  /** The split is lossless: put together again, the pieces are the text. */
  lemma {:induction false} PiecesAreLossless(s: string)
    ensures Concat(Pieces(s)) == s
    decreases |s|
  {
    if s != [] {
      var n := FirstPiece(s);
      PiecesAreLossless(s[n..]);
      assert Pieces(s)[1..] == Pieces(s[n..]);
      assert s == s[..n] + s[n..];
    }
  }

  predicate WordsKept(pieces: seq<string>) {
    && (forall i :: 0 <= i < |pieces| ==> pieces[i] != [])
    && (forall i :: 0 < i < |pieces| ==> pieces[i] != [] && !IsSpace(pieces[i][0]))
    && (forall i :: 0 <= i < |pieces| - 1 ==> pieces[i] != [] && IsSpace(pieces[i][|pieces[i]| - 1]))
  }

  lemma OneMorePiece(piece: string, pieces: seq<string>)
    requires piece != [] && WordsKept(pieces)
    requires pieces != [] ==> !IsSpace(pieces[0][0]) && IsSpace(piece[|piece| - 1])
    ensures WordsKept([piece] + pieces)
  {
  }

  /** No piece is empty and no word is split: every piece but the first starts a word, and every
      piece but the last ends in whitespace. */
  lemma {:induction false} PiecesKeepWords(s: string)
    ensures WordsKept(Pieces(s))
    ensures s != [] ==> Pieces(s) != [] && Pieces(s)[0] != [] && Pieces(s)[0][0] == s[0]
    decreases |s|
  {
    if s != [] {
      var n := FirstPiece(s);
      PiecesKeepWords(s[n..]);
      assert s[..n][0] == s[0] && s[..n][n - 1] == s[n - 1];
      assert n < |s| ==> s[n..][0] == s[n];
      OneMorePiece(s[..n], Pieces(s[n..]));
    }
  }

  function Speak(pieces: seq<string>): (nodes: seq<Node>)
    ensures |nodes| == |pieces| && forall i :: 0 <= i < |nodes| ==> nodes[i] == Say(pieces[i])
  {
    seq(|pieces|, i requires 0 <= i < |pieces| => Say(pieces[i]))
  }

  lemma {:induction false} SpeakSays(pieces: seq<string>)
    ensures Says(Speak(pieces)) == pieces
  {
    if pieces != [] {
      assert Speak(pieces)[1..] == Speak(pieces[1..]);
      SpeakSays(pieces[1..]);
      assert Says(Speak(pieces)) == [pieces[0]] + Says(Speak(pieces[1..]));
    }
  }

  // ------------------------------------------------------------------ what a turn is given

  datatype Intent = SaveIt | RecallIt | SaveAndRecall | CorrectIt | ChitChat

  /** Awaited work, and what it gives when nothing in it fails. */
  datatype Work<T> = Work(nodes: seq<Node>, result: T)

  datatype Timing = Timing(at: int, measured: int, write: Write)

  datatype Correction = NotACorrection | Corrected(reply: string)

  /** How the provider's stream ends: its result, nothing, or no provider left to ask. */
  datatype ChatEnd = ChatResult(call: Call, text: string, write: Write) | NoResult
                   | Unavailable(code: string, message: string)

  datatype Recaller = Recaller(alone: Work<string>, afterSave: Work<string>)

  /** The collaborators of one turn. `recall`, `triggers` and `correct` may be missing. */
  datatype Context = Context(
    acceptsOffer: bool, acceptsSave: bool, secretFound: bool,
    understand: Timing, classify: Work<Intent>, intentWrite: Write,
    ingest: Work<string>, ingestAnswer: Timing,
    recall: Option<Recaller>,
    triggers: Option<Work<Option<string>>>,
    correct: Option<Work<Correction>>,
    hasPrompt: bool, chat: Timing, deltas: seq<string>, chatEnd: ChatEnd)

  datatype GraphState = GraphState(intent: Option<Intent>, answer: Option<string>, notACorrection: bool)

  datatype Place = AtIntent | AtIngest | AtRecall | AtCorrect | AtAnswer | AtTriggers | AtEnd

  /** What a node awaits and how it updates the state; one that raises ends the walk. */
  datatype Visit = Visit(work: seq<Node>, state: GraphState, raised: bool)

  function StepOf(step: AgentStep, t: Timing, body: seq<Node>): Node {
    RunStep(step, t.at, body, t.measured, t.write)
  }

  function IntentText(intent: Intent): string {
    match intent
    case SaveIt => "save" case RecallIt => "recall" case SaveAndRecall => "save_and_recall"
    case CorrectIt => "correct" case ChitChat => "chit_chat"
  }

  function ChosenIntent(ctx: Context): Intent {
    if ctx.acceptsOffer && !ctx.secretFound then CorrectIt
    else if ctx.acceptsSave && !ctx.secretFound then SaveIt
    else if ctx.secretFound then SaveIt
    else ctx.classify.result
  }

  predicate AsksModel(ctx: Context) {
    !ctx.acceptsOffer && !ctx.acceptsSave && !ctx.secretFound
  }

  function IntentNode(s: GraphState, ctx: Context): Visit {
    var ask := if AsksModel(ctx) then ctx.classify.nodes else [];
    var tell := [Emit(IntentEvent(IntentText(ChosenIntent(ctx))), ctx.intentWrite)];
    Visit([StepOf(Understand, ctx.understand, ask + tell)], s.(intent := Some(ChosenIntent(ctx))), false)
  }

  function IngestNode(s: GraphState, ctx: Context): Visit {
    Visit(ctx.ingest.nodes + [StepOf(Answer, ctx.ingestAnswer, Speak(Pieces(ctx.ingest.result)))],
          s.(answer := Some(ctx.ingest.result)), false)
  }

  /** A reply already given goes on after a blank line, when there is any text in it. */
  function RecallNode(s: GraphState, ctx: Context): Visit {
    if ctx.recall.None? then Visit([Raise(Crashed)], s, true)
    else if s.answer.Some? && s.answer.value != "" then
      var r := ctx.recall.value.afterSave;
      Visit([Say("\n\n")] + r.nodes, s.(answer := Some(s.answer.value + "\n\n" + r.result)), false)
    else
      var r := ctx.recall.value.alone;
      Visit(r.nodes, s.(answer := Some(r.result)), false)
  }

  function TriggersNode(s: GraphState, ctx: Context): Visit {
    if ctx.triggers.None? then Visit([], s, false)
    else
      var w := ctx.triggers.value;
      if w.result.None? || w.result.value == "" then Visit(w.nodes, s, false)
      else
        var text := "\n\n" + w.result.value;
        Visit(w.nodes + Speak(Pieces(text)), s.(answer := Some((if s.answer.Some? then s.answer.value else "") + text)),
              false)
  }

  function CorrectNode(s: GraphState, ctx: Context): Visit {
    if ctx.correct.None? then Visit([Raise(Crashed)], s, true)
    else match ctx.correct.value.result
      case NotACorrection => Visit(ctx.correct.value.nodes, s.(notACorrection := true), false)
      case Corrected(reply) => Visit(ctx.correct.value.nodes, s.(answer := Some(reply)), false)
  }

  function AnswerNode(s: GraphState, ctx: Context): Visit {
    if !ctx.hasPrompt then Visit([Raise(Crashed)], s, true)
    else match ctx.chatEnd
      case ChatResult(call, text, w) =>
        Visit([StepOf(Answer, ctx.chat, Speak(ctx.deltas) + [CallModel(call, w)])], s.(answer := Some(text)), false)
      case NoResult =>
        Visit([StepOf(Answer, ctx.chat, Speak(ctx.deltas) + [Raise(Crashed)])], s, true)
      case Unavailable(code, message) =>
        Visit([StepOf(Answer, ctx.chat, Speak(ctx.deltas) + [Raise(ProviderUnavailable(code, message))])], s, true)
  }

  function VisitOf(place: Place, s: GraphState, ctx: Context): Visit {
    match place
    case AtIntent => IntentNode(s, ctx)
    case AtIngest => IngestNode(s, ctx)
    case AtRecall => RecallNode(s, ctx)
    case AtCorrect => CorrectNode(s, ctx)
    case AtAnswer => AnswerNode(s, ctx)
    case AtTriggers => TriggersNode(s, ctx)
    case AtEnd => Visit([], s, false)
  }

  function RouteIntent(s: GraphState): Place {
    match s.intent
    case Some(SaveIt) => AtIngest
    case Some(SaveAndRecall) => AtIngest
    case Some(RecallIt) => AtRecall
    case Some(CorrectIt) => AtCorrect
    case _ => AtAnswer
  }

  function AfterIngest(s: GraphState): Place {
    if s.intent == Some(SaveAndRecall) then AtRecall else AtTriggers
  }

  function AfterCorrect(s: GraphState): Place {
    if s.notACorrection then AtIngest else AtTriggers
  }

  function NextPlace(place: Place, s: GraphState): Place {
    match place
    case AtIntent => RouteIntent(s)
    case AtIngest => AfterIngest(s)
    case AtCorrect => AfterCorrect(s)
    case AtRecall => AtTriggers
    case AtAnswer => AtTriggers
    case _ => AtEnd
  }

  /** Places still ahead: no edge leads back. */
  function Rank(place: Place): nat {
    match place
    case AtIntent => 5 case AtCorrect => 4 case AtIngest => 3 case AtRecall => 2 case AtAnswer => 2
    case AtTriggers => 1 case AtEnd => 0
  }

  /** All the work from a place on, and the state it ends in. */
  function Walk(place: Place, s: GraphState, ctx: Context): Visit
    decreases Rank(place)
  {
    var v := VisitOf(place, s, ctx);
    if v.raised || place == AtEnd then v
    else
      var rest := Walk(NextPlace(place, v.state), v.state, ctx);
      Visit(v.work + rest.work, rest.state, rest.raised)
  }

  function GraphRun(ctx: Context): Visit {
    Walk(AtIntent, GraphState(None, None, false), ctx)
  }

  // ------------------------------------------------------------------ the routes

  /** The nodes a walk visits; one that raises is its last. */
  function Visited(place: Place, s: GraphState, ctx: Context): seq<Place>
    decreases Rank(place)
  {
    var v := VisitOf(place, s, ctx);
    if place == AtEnd then []
    else if v.raised then [place]
    else [place] + Visited(NextPlace(place, v.state), v.state, ctx)
  }

  lemma EndsAfterTriggers(s: GraphState, ctx: Context)
    ensures Visited(AtTriggers, s, ctx) == [AtTriggers]
    ensures Walk(AtTriggers, s, ctx).state == TriggersNode(s, ctx).state && !Walk(AtTriggers, s, ctx).raised
  {
    var t := TriggersNode(s, ctx).state;
    assert Visited(AtEnd, t, ctx) == [] && [AtTriggers] + [] == [AtTriggers];
    assert Walk(AtEnd, t, ctx).state == t && !Walk(AtEnd, t, ctx).raised;
  }

  function NoteText(ctx: Context): string {
    if ctx.triggers.Some? && ctx.triggers.value.result.Some? && ctx.triggers.value.result.value != ""
    then "\n\n" + ctx.triggers.value.result.value
    else ""
  }

  lemma NoteIsAppended(s: GraphState, ctx: Context, reply: string)
    requires s.answer == Some(reply)
    ensures TriggersNode(s, ctx).state.answer == Some(reply + NoteText(ctx))
  {
    assert reply + "" == reply;
  }

  // ------------------------------------------------------------------ the whole walk, by what the turn is given

  const START := GraphState(None, None, false)

  /** The intent step: it asks the model or not, and then says this intent. */
  function IntentStep(ctx: Context, asks: bool, text: string): Node {
    RunStep(Understand, ctx.understand.at,
            (if asks then ctx.classify.nodes else []) + [Emit(IntentEvent(text), ctx.intentWrite)],
            ctx.understand.measured, ctx.understand.write)
  }

  /** Saving: the pipeline's work, and its reply said in an answer step. */
  function SavingWork(ctx: Context): seq<Node> {
    ctx.ingest.nodes +
    [RunStep(Answer, ctx.ingestAnswer.at, Speak(Pieces(ctx.ingest.result)), ctx.ingestAnswer.measured,
             ctx.ingestAnswer.write)]
  }

  /** Answering: the provider's text as it comes, and then how its stream ended. */
  function ChatWork(ctx: Context, last: Node): seq<Node> {
    [RunStep(Answer, ctx.chat.at, Speak(ctx.deltas) + [last], ctx.chat.measured, ctx.chat.write)]
  }

  /** The trigger check, and its note when there is one. */
  function NoteWork(ctx: Context): seq<Node> {
    match ctx.triggers
    case None => []
    case Some(w) => w.nodes + (if NoteText(ctx) == "" then [] else Speak(Pieces(NoteText(ctx))))
  }

  /** The walk goes through these places, does this work between the intent step and the trigger check,
      raises nothing and answers with this reply and the note. */
  predicate Does(ctx: Context, asks: bool, text: string, places: seq<Place>, work: seq<Node>, reply: string) {
    && Visited(AtIntent, START, ctx) == [AtIntent] + places + [AtTriggers]
    && GraphRun(ctx).work == [IntentStep(ctx, asks, text)] + work + NoteWork(ctx)
    && !GraphRun(ctx).raised
    && GraphRun(ctx).state.answer == Some(reply + NoteText(ctx))
  }

  /** The walk stops at the last of these places, which raises. */
  predicate Stops(ctx: Context, asks: bool, text: string, places: seq<Place>, work: seq<Node>) {
    && Visited(AtIntent, START, ctx) == [AtIntent] + places
    && GraphRun(ctx).work == [IntentStep(ctx, asks, text)] + work
    && GraphRun(ctx).raised
  }

  /** The rest of a walk, from the place after the intent step. */
  predicate Goes(ctx: Context, from: Place, s: GraphState, places: seq<Place>, work: seq<Node>, reply: string) {
    && Visited(from, s, ctx) == places + [AtTriggers]
    && Walk(from, s, ctx).work == work + NoteWork(ctx)
    && !Walk(from, s, ctx).raised
    && Walk(from, s, ctx).state.answer == Some(reply + NoteText(ctx))
  }

  predicate Halts(ctx: Context, from: Place, s: GraphState, places: seq<Place>, work: seq<Node>) {
    && Visited(from, s, ctx) == places && Walk(from, s, ctx).work == work && Walk(from, s, ctx).raised
  }

  lemma TriggersGo(ctx: Context, s: GraphState, reply: string)
    requires s.answer == Some(reply)
    ensures Goes(ctx, AtTriggers, s, [], [], reply)
  {
    var v := TriggersNode(s, ctx);
    EndsAfterTriggers(s, ctx);
    NoteIsAppended(s, ctx, reply);
    assert Walk(AtEnd, v.state, ctx).work == [] && v.work + [] == v.work;
    assert v.work == [] + NoteWork(ctx) by {
      if ctx.triggers.Some? { assert ctx.triggers.value.nodes + [] == ctx.triggers.value.nodes; }
    }
  }

  lemma WalkFrom(ctx: Context, place: Place, s: GraphState)
    requires place != AtEnd && !VisitOf(place, s, ctx).raised
    ensures var v := VisitOf(place, s, ctx);
      var next := NextPlace(place, v.state);
      && Visited(place, s, ctx) == [place] + Visited(next, v.state, ctx)
      && Walk(place, s, ctx).work == v.work + Walk(next, v.state, ctx).work
      && Walk(place, s, ctx).state == Walk(next, v.state, ctx).state
      && Walk(place, s, ctx).raised == Walk(next, v.state, ctx).raised
  {
  }

  /** One place more in front. */
  lemma OnePlaceGoes(ctx: Context, place: Place, s: GraphState, places: seq<Place>, work: seq<Node>, reply: string)
    requires place != AtEnd && !VisitOf(place, s, ctx).raised
    requires Goes(ctx, NextPlace(place, VisitOf(place, s, ctx).state), VisitOf(place, s, ctx).state, places, work,
                  reply)
    ensures Goes(ctx, place, s, [place] + places, VisitOf(place, s, ctx).work + work, reply)
  {
    WalkFrom(ctx, place, s);
    assert [place] + (places + [AtTriggers]) == ([place] + places) + [AtTriggers];
    assert VisitOf(place, s, ctx).work + (work + NoteWork(ctx)) == (VisitOf(place, s, ctx).work + work) + NoteWork(ctx);
  }

  lemma LastPlaceGoes(ctx: Context, place: Place, s: GraphState, reply: string)
    requires place != AtEnd && !VisitOf(place, s, ctx).raised
    requires NextPlace(place, VisitOf(place, s, ctx).state) == AtTriggers
    requires VisitOf(place, s, ctx).state.answer == Some(reply)
    ensures Goes(ctx, place, s, [place], VisitOf(place, s, ctx).work, reply)
  {
    var v := VisitOf(place, s, ctx);
    TriggersGo(ctx, v.state, reply);
    OnePlaceGoes(ctx, place, s, [], [], reply);
    assert [place] + [] == [place] && v.work + [] == v.work;
  }

  lemma SavingGoes(ctx: Context, s: GraphState)
    requires s.intent != Some(SaveAndRecall)
    ensures Goes(ctx, AtIngest, s, [AtIngest], SavingWork(ctx), ctx.ingest.result)
  {
    LastPlaceGoes(ctx, AtIngest, s, ctx.ingest.result);
  }

  lemma RecallingGoes(ctx: Context, s: GraphState)
    requires ctx.recall.Some? && (s.answer.None? || s.answer.value == "")
    ensures Goes(ctx, AtRecall, s, [AtRecall], ctx.recall.value.alone.nodes, ctx.recall.value.alone.result)
  {
    LastPlaceGoes(ctx, AtRecall, s, ctx.recall.value.alone.result);
  }

  lemma RecallingOnGoes(ctx: Context, s: GraphState)
    requires ctx.recall.Some? && s.answer.Some? && s.answer.value != ""
    ensures var r := ctx.recall.value.afterSave;
      Goes(ctx, AtRecall, s, [AtRecall], [Say("\n\n")] + r.nodes, s.answer.value + "\n\n" + r.result)
  {
    LastPlaceGoes(ctx, AtRecall, s, s.answer.value + "\n\n" + ctx.recall.value.afterSave.result);
  }

  lemma StopsHere(ctx: Context, place: Place, s: GraphState)
    requires place != AtEnd && VisitOf(place, s, ctx).raised
    ensures Halts(ctx, place, s, [place], VisitOf(place, s, ctx).work)
  {
  }

  lemma OnePlaceHalts(ctx: Context, place: Place, s: GraphState, places: seq<Place>, work: seq<Node>)
    requires place != AtEnd && !VisitOf(place, s, ctx).raised
    requires Halts(ctx, NextPlace(place, VisitOf(place, s, ctx).state), VisitOf(place, s, ctx).state, places, work)
    ensures Halts(ctx, place, s, [place] + places, VisitOf(place, s, ctx).work + work)
  {
  }

  /** What the intent step decides, and whether it asks the model. */
  lemma IntentIs(ctx: Context, asks: bool, intent: Intent, text: string)
    requires asks == (!ctx.acceptsOffer && !ctx.acceptsSave && !ctx.secretFound)
    requires intent == (if ctx.secretFound then SaveIt else if ctx.acceptsOffer then CorrectIt
                        else if ctx.acceptsSave then SaveIt else ctx.classify.result)
    requires text == match intent
                     case SaveIt => "save" case RecallIt => "recall" case SaveAndRecall => "save_and_recall"
                     case CorrectIt => "correct" case ChitChat => "chit_chat"
    ensures VisitOf(AtIntent, START, ctx)
         == Visit([IntentStep(ctx, asks, text)], GraphState(Some(intent), None, false), false)
  {
  }

  lemma IntentThenGoes(ctx: Context, asks: bool, intent: Intent, text: string, from: Place, places: seq<Place>,
                       work: seq<Node>, reply: string)
    requires VisitOf(AtIntent, START, ctx)
          == Visit([IntentStep(ctx, asks, text)], GraphState(Some(intent), None, false), false)
    requires from == RouteIntent(GraphState(Some(intent), None, false))
    requires Goes(ctx, from, GraphState(Some(intent), None, false), places, work, reply)
    ensures Does(ctx, asks, text, places, work, reply)
  {
    OnePlaceGoes(ctx, AtIntent, START, places, work, reply);
  }

  lemma IntentThenHalts(ctx: Context, asks: bool, intent: Intent, text: string, from: Place, places: seq<Place>,
                        work: seq<Node>)
    requires VisitOf(AtIntent, START, ctx)
          == Visit([IntentStep(ctx, asks, text)], GraphState(Some(intent), None, false), false)
    requires from == RouteIntent(GraphState(Some(intent), None, false))
    requires Halts(ctx, from, GraphState(Some(intent), None, false), places, work)
    ensures Stops(ctx, asks, text, places, work)
  {
    OnePlaceHalts(ctx, AtIntent, START, places, work);
  }

  /** A message that is to be saved: one with a secret in it, whatever else is true of it; a yes to the
      offer to save; or what the model takes for one. */
  lemma SavesTheMessage(ctx: Context, asks: bool)
    requires asks == (!ctx.acceptsOffer && !ctx.acceptsSave && !ctx.secretFound)
    requires ctx.secretFound || (!ctx.acceptsOffer && ctx.acceptsSave) || (asks && ctx.classify.result == SaveIt)
    ensures Does(ctx, asks, "save", [AtIngest], SavingWork(ctx), ctx.ingest.result)
  {
    IntentIs(ctx, asks, SaveIt, "save");
    SavingGoes(ctx, GraphState(Some(SaveIt), None, false));
    IntentThenGoes(ctx, asks, SaveIt, "save", AtIngest, [AtIngest], SavingWork(ctx), ctx.ingest.result);
  }

  lemma RecallsOnly(ctx: Context)
    requires !ctx.acceptsOffer && !ctx.acceptsSave && !ctx.secretFound && ctx.classify.result == RecallIt
    ensures ctx.recall.Some? ==>
      Does(ctx, true, "recall", [AtRecall], ctx.recall.value.alone.nodes, ctx.recall.value.alone.result)
    ensures ctx.recall.None? ==> Stops(ctx, true, "recall", [AtRecall], [Raise(Crashed)])
  {
    IntentIs(ctx, true, RecallIt, "recall");
    var s := GraphState(Some(RecallIt), None, false);
    if ctx.recall.Some? {
      RecallingGoes(ctx, s);
      IntentThenGoes(ctx, true, RecallIt, "recall", AtRecall, [AtRecall], ctx.recall.value.alone.nodes,
                     ctx.recall.value.alone.result);
    } else {
      StopsHere(ctx, AtRecall, s);
      IntentThenHalts(ctx, true, RecallIt, "recall", AtRecall, [AtRecall], [Raise(Crashed)]);
    }
  }

  /** A save and then a recall, which goes on after a blank line when the save said anything. */
  lemma SavesAndRecalls(ctx: Context)
    requires !ctx.acceptsOffer && !ctx.acceptsSave && !ctx.secretFound && ctx.classify.result == SaveAndRecall
    requires ctx.recall.Some?
    ensures ctx.ingest.result == "" ==>
      Does(ctx, true, "save_and_recall", [AtIngest, AtRecall], SavingWork(ctx) + ctx.recall.value.alone.nodes,
           ctx.recall.value.alone.result)
    ensures ctx.ingest.result != "" ==>
      Does(ctx, true, "save_and_recall", [AtIngest, AtRecall],
           SavingWork(ctx) + ([Say("\n\n")] + ctx.recall.value.afterSave.nodes),
           ctx.ingest.result + "\n\n" + ctx.recall.value.afterSave.result)
  {
    IntentIs(ctx, true, SaveAndRecall, "save_and_recall");
    var s, r := GraphState(Some(SaveAndRecall), None, false), ctx.recall.value;
    var saved := IngestNode(s, ctx).state;
    assert [AtIngest] + [AtRecall] == [AtIngest, AtRecall];
    if ctx.ingest.result == "" {
      RecallingGoes(ctx, saved);
      OnePlaceGoes(ctx, AtIngest, s, [AtRecall], r.alone.nodes, r.alone.result);
      IntentThenGoes(ctx, true, SaveAndRecall, "save_and_recall", AtIngest, [AtIngest, AtRecall],
                     SavingWork(ctx) + r.alone.nodes, r.alone.result);
    } else {
      var more, reply := [Say("\n\n")] + r.afterSave.nodes, ctx.ingest.result + "\n\n" + r.afterSave.result;
      RecallingOnGoes(ctx, saved);
      OnePlaceGoes(ctx, AtIngest, s, [AtRecall], more, reply);
      IntentThenGoes(ctx, true, SaveAndRecall, "save_and_recall", AtIngest, [AtIngest, AtRecall],
                     SavingWork(ctx) + more, reply);
    }
  }

  lemma SavesAndCannotRecall(ctx: Context)
    requires !ctx.acceptsOffer && !ctx.acceptsSave && !ctx.secretFound && ctx.classify.result == SaveAndRecall
    requires ctx.recall.None?
    ensures Stops(ctx, true, "save_and_recall", [AtIngest, AtRecall], SavingWork(ctx) + [Raise(Crashed)])
  {
    IntentIs(ctx, true, SaveAndRecall, "save_and_recall");
    var s := GraphState(Some(SaveAndRecall), None, false);
    StopsHere(ctx, AtRecall, IngestNode(s, ctx).state);
    OnePlaceHalts(ctx, AtIngest, s, [AtRecall], [Raise(Crashed)]);
    assert [AtIngest] + [AtRecall] == [AtIngest, AtRecall];
    IntentThenHalts(ctx, true, SaveAndRecall, "save_and_recall", AtIngest, [AtIngest, AtRecall],
                    SavingWork(ctx) + [Raise(Crashed)]);
  }

  /** A correction: a yes to the offer to correct, or what the model takes for one. What turns out to be new
      information is saved instead. */
  lemma Corrects(ctx: Context, asks: bool)
    requires asks == (!ctx.acceptsOffer && !ctx.acceptsSave && !ctx.secretFound) && !ctx.secretFound
    requires ctx.acceptsOffer || (asks && ctx.classify.result == CorrectIt)
    ensures ctx.correct.None? ==> Stops(ctx, asks, "correct", [AtCorrect], [Raise(Crashed)])
    ensures ctx.correct.Some? ==>
      match ctx.correct.value.result
      case Corrected(reply) => Does(ctx, asks, "correct", [AtCorrect], ctx.correct.value.nodes, reply)
      case NotACorrection =>
        Does(ctx, asks, "correct", [AtCorrect, AtIngest], ctx.correct.value.nodes + SavingWork(ctx), ctx.ingest.result)
  {
    IntentIs(ctx, asks, CorrectIt, "correct");
    var s := GraphState(Some(CorrectIt), None, false);
    match ctx.correct
    case None =>
      StopsHere(ctx, AtCorrect, s);
      IntentThenHalts(ctx, asks, CorrectIt, "correct", AtCorrect, [AtCorrect], [Raise(Crashed)]);
    case Some(w) =>
      match w.result
      case Corrected(reply) =>
        LastPlaceGoes(ctx, AtCorrect, s, reply);
        IntentThenGoes(ctx, asks, CorrectIt, "correct", AtCorrect, [AtCorrect], w.nodes, reply);
      case NotACorrection =>
        SavingGoes(ctx, CorrectNode(s, ctx).state);
        OnePlaceGoes(ctx, AtCorrect, s, [AtIngest], SavingWork(ctx), ctx.ingest.result);
        assert [AtCorrect] + [AtIngest] == [AtCorrect, AtIngest];
        IntentThenGoes(ctx, asks, CorrectIt, "correct", AtCorrect, [AtCorrect, AtIngest], w.nodes + SavingWork(ctx),
                       ctx.ingest.result);
  }

  /** Anything else is answered by the provider; without a prompt or a result the turn fails. */
  lemma Chats(ctx: Context)
    requires !ctx.acceptsOffer && !ctx.acceptsSave && !ctx.secretFound && ctx.classify.result == ChitChat
    ensures !ctx.hasPrompt ==> Stops(ctx, true, "chit_chat", [AtAnswer], [Raise(Crashed)])
    ensures ctx.hasPrompt ==>
      match ctx.chatEnd
      case ChatResult(call, text, w) =>
        Does(ctx, true, "chit_chat", [AtAnswer], ChatWork(ctx, CallModel(call, w)), text)
      case NoResult => Stops(ctx, true, "chit_chat", [AtAnswer], ChatWork(ctx, Raise(Crashed)))
      case Unavailable(code, message) =>
        Stops(ctx, true, "chit_chat", [AtAnswer], ChatWork(ctx, Raise(ProviderUnavailable(code, message))))
  {
    IntentIs(ctx, true, ChitChat, "chit_chat");
    var s := GraphState(Some(ChitChat), None, false);
    var v := AnswerNode(s, ctx);
    if v.raised {
      StopsHere(ctx, AtAnswer, s);
      IntentThenHalts(ctx, true, ChitChat, "chit_chat", AtAnswer, [AtAnswer], v.work);
    } else {
      LastPlaceGoes(ctx, AtAnswer, s, ctx.chatEnd.text);
      IntentThenGoes(ctx, true, ChitChat, "chit_chat", AtAnswer, [AtAnswer], v.work, ctx.chatEnd.text);
    }
  }

  // ------------------------------------------------------------------ streamed text is the answer

  predicate WritesNothing(nodes: seq<Node>) {
    Says(nodes) == []
  }

  predicate WritesReply(w: Work<string>) {
    Concat(Says(w.nodes)) == w.result
  }

  /** Recall, correct and the provider write exactly the reply they return; the intent model, the
      ingest pipeline and the trigger check write nothing. */
  predicate Faithful(ctx: Context) {
    && WritesNothing(ctx.classify.nodes) && WritesNothing(ctx.ingest.nodes)
    && (ctx.triggers.Some? ==> WritesNothing(ctx.triggers.value.nodes))
    && (ctx.recall.Some? ==> WritesReply(ctx.recall.value.alone) && WritesReply(ctx.recall.value.afterSave))
    && (ctx.correct.Some? ==>
          Concat(Says(ctx.correct.value.nodes)) ==
          match ctx.correct.value.result case NotACorrection => "" case Corrected(reply) => reply)
    && (ctx.chatEnd.ChatResult? ==> Concat(ctx.deltas) == ctx.chatEnd.text)
  }

  function Spoken(nodes: seq<Node>): string {
    Concat(Says(nodes))
  }

  function AnswerText(s: GraphState): string {
    if s.answer.Some? then s.answer.value else ""
  }

  lemma SpokenConcat(a: seq<Node>, b: seq<Node>)
    ensures Spoken(a + b) == Spoken(a) + Spoken(b)
  {
    SaysConcat(a, b);
    ConcatAppend(Says(a), Says(b));
  }

  lemma SpokenStep(step: AgentStep, t: Timing, body: seq<Node>)
    ensures Spoken([StepOf(step, t, body)]) == Spoken(body)
  {
    var one := [StepOf(step, t, body)];
    assert one[1..] == [];
    assert Says(one) == Says(body) + Says(one[1..]) == Says(body);
  }

  lemma SpokenPieces(text: string)
    ensures Spoken(Speak(Pieces(text))) == text
  {
    SpeakSays(Pieces(text));
    PiecesAreLossless(text);
  }

  lemma SpokenOne(node: Node)
    ensures Spoken([node]) == Concat(NodeSays(node))
  {
    assert [node][1..] == [];
    assert Says([node]) == NodeSays(node) + Says([node][1..]) == NodeSays(node);
  }

  lemma IntentSpeaks(s: GraphState, ctx: Context)
    requires Faithful(ctx)
    ensures Spoken(IntentNode(s, ctx).work) == ""
  {
    var ask := if AsksModel(ctx) then ctx.classify.nodes else [];
    var tell := Emit(IntentEvent(IntentText(ChosenIntent(ctx))), ctx.intentWrite);
    SpokenStep(Understand, ctx.understand, ask + [tell]);
    SpokenConcat(ask, [tell]);
    SpokenOne(tell);
  }

  lemma IngestSpeaks(s: GraphState, ctx: Context)
    requires Faithful(ctx)
    ensures Spoken(IngestNode(s, ctx).work) == ctx.ingest.result
  {
    var reply := Speak(Pieces(ctx.ingest.result));
    SpokenConcat(ctx.ingest.nodes, [StepOf(Answer, ctx.ingestAnswer, reply)]);
    SpokenStep(Answer, ctx.ingestAnswer, reply);
    SpokenPieces(ctx.ingest.result);
    assert "" + ctx.ingest.result == ctx.ingest.result;
  }

  lemma RecallSpeaks(s: GraphState, ctx: Context)
    requires Faithful(ctx) && ctx.recall.Some?
    ensures var v := RecallNode(s, ctx); AnswerText(s) + Spoken(v.work) == AnswerText(v.state)
  {
    if AnswerText(s) != "" {
      var r := ctx.recall.value.afterSave;
      SpokenConcat([Say("\n\n")], r.nodes);
      SpokenOne(Say("\n\n"));
      assert Concat(["\n\n"]) == "\n\n";
      Grouped(s.answer.value, "\n\n", r.result);
    }
  }

  lemma Grouped(a: string, b: string, c: string)
    ensures a + (b + c) == (a + b) + c
  {
  }

  lemma AnswerSpeaks(s: GraphState, ctx: Context)
    requires Faithful(ctx) && !AnswerNode(s, ctx).raised
    ensures Spoken(AnswerNode(s, ctx).work) == AnswerText(AnswerNode(s, ctx).state)
  {
    var made := CallModel(ctx.chatEnd.call, ctx.chatEnd.write);
    SpokenStep(Answer, ctx.chat, Speak(ctx.deltas) + [made]);
    SpokenConcat(Speak(ctx.deltas), [made]);
    SpokenOne(made);
    SpeakSays(ctx.deltas);
    assert ctx.chatEnd.text + "" == ctx.chatEnd.text;
  }

  lemma StreamsAfter(nodes: seq<Node>, text: string)
    requires WritesNothing(nodes)
    ensures Spoken(nodes + Speak(Pieces(text))) == text
  {
    SpokenConcat(nodes, Speak(Pieces(text)));
    SpokenPieces(text);
    assert "" + text == text;
  }

  lemma TriggersSpeak(s: GraphState, ctx: Context)
    requires Faithful(ctx)
    ensures var v := TriggersNode(s, ctx); AnswerText(s) + Spoken(v.work) == AnswerText(v.state)
  {
    if ctx.triggers.Some? {
      var w := ctx.triggers.value;
      if w.result.Some? && w.result.value != "" {
        StreamsAfter(w.nodes, "\n\n" + w.result.value);
      } else {
        assert Spoken(w.nodes) == "" && AnswerText(s) + "" == AnswerText(s);
      }
    }
  }

  /** One visit keeps the equation: what has been written so far is the answer so far. */
  lemma VisitSpeaks(place: Place, s: GraphState, ctx: Context)
    requires Faithful(ctx) && !VisitOf(place, s, ctx).raised
    requires place == AtIntent || place == AtIngest || place == AtCorrect || place == AtAnswer ==> s.answer.None?
    ensures var v := VisitOf(place, s, ctx); AnswerText(s) + Spoken(v.work) == AnswerText(v.state)
  {
    match place
    case AtIntent => IntentSpeaks(s, ctx);
    case AtIngest => IngestSpeaks(s, ctx);
    case AtRecall => RecallSpeaks(s, ctx);
    case AtCorrect =>
    case AtAnswer => AnswerSpeaks(s, ctx);
    case AtTriggers => TriggersSpeak(s, ctx);
    case AtEnd =>
  }

  /** What the routes keep: until a node has answered there is no answer, and from the trigger check
      on there is one. */
  predicate OnRoute(place: Place, s: GraphState) {
    && (place == AtIntent || place == AtIngest || place == AtCorrect || place == AtAnswer ==> s.answer.None?)
    && (place == AtIntent || place == AtCorrect ==> !s.notACorrection)
    && (place == AtTriggers || place == AtEnd ==> s.answer.Some?)
  }

  lemma StaysOnRoute(place: Place, s: GraphState, ctx: Context)
    requires OnRoute(place, s) && !VisitOf(place, s, ctx).raised
    ensures var v := VisitOf(place, s, ctx); OnRoute(NextPlace(place, v.state), v.state)
  {
  }

  lemma {:induction false} WalkSpeaks(place: Place, s: GraphState, ctx: Context)
    requires Faithful(ctx) && OnRoute(place, s) && !Walk(place, s, ctx).raised
    ensures var w := Walk(place, s, ctx);
      w.state.answer.Some? && AnswerText(s) + Spoken(w.work) == AnswerText(w.state)
    decreases Rank(place)
  {
    VisitSpeaks(place, s, ctx);
    if place != AtEnd {
      var v := VisitOf(place, s, ctx);
      StaysOnRoute(place, s, ctx);
      RestSpeaks(place, s, v, ctx);
    }
  }

  lemma {:induction false} RestSpeaks(place: Place, s: GraphState, v: Visit, ctx: Context)
    requires Faithful(ctx) && place != AtEnd && v == VisitOf(place, s, ctx)
        && OnRoute(NextPlace(place, v.state), v.state)
    requires !v.raised && !Walk(NextPlace(place, v.state), v.state, ctx).raised
    requires AnswerText(s) + Spoken(v.work) == AnswerText(v.state)
    ensures var w := Walk(place, s, ctx);
      w.state.answer.Some? && AnswerText(s) + Spoken(w.work) == AnswerText(w.state)
    decreases Rank(place), 0
  {
    var next := NextPlace(place, v.state);
    WalkSpeaks(next, v.state, ctx);
    var rest := Walk(next, v.state, ctx);
    SpokenConcat(v.work, rest.work);
    Grouped(AnswerText(s), Spoken(v.work), Spoken(rest.work));
  }

  /** For every route through the graph that raises nothing, there is an answer and the texts written
      to the stream, in order, are that answer. */
  lemma StreamedTextIsTheAnswer(ctx: Context)
    requires Faithful(ctx) && !GraphRun(ctx).raised
    ensures GraphRun(ctx).state.answer == Some(Spoken(GraphRun(ctx).work))
  {
    var start := GraphState(None, None, false);
    WalkSpeaks(AtIntent, start, ctx);
    assert "" + Spoken(GraphRun(ctx).work) == Spoken(GraphRun(ctx).work);
  }

  /** A message with a secret in it is saved, by rule: the intent step asks no model. */
  lemma SecretsSkipTheModel(ctx: Context, s: GraphState)
    requires ctx.secretFound
    ensures var v := IntentNode(s, ctx);
      && RouteIntent(v.state) == AtIngest && AfterIngest(v.state) == AtTriggers
      && forall more :: IntentNode(s, ctx.(classify := more)) == v
  {
  }

  // ------------------------------------------------------------------ in a whole turn

  lemma {:induction false} ExecConcat(s: RunState, a: seq<Node>, b: seq<Node>)
    ensures var first := Exec(s, a);
      Exec(s, a + b) == if first.failure.Some? then first else Exec(first.state, b)
    decreases a
  {
    if a == [] {
      assert a + b == b;
    } else {
      assert (a + b)[1..] == a[1..] + b;
      var first := ExecNode(s, a[0]);
      if first.failure.None? {
        ExecConcat(first.state, a[1..], b);
      }
    }
  }

  /** A node that raises makes the work fail. */
  lemma {:induction false} RaisedFails(r: RunState, place: Place, s: GraphState, ctx: Context)
    requires Walk(place, s, ctx).raised
    ensures Exec(r, Walk(place, s, ctx).work).failure.Some?
    decreases Rank(place)
  {
    var v := VisitOf(place, s, ctx);
    if v.raised {
      VisitFails(r, place, s, ctx);
    } else {
      var rest := Walk(NextPlace(place, v.state), v.state, ctx);
      ExecConcat(r, v.work, rest.work);
      if Exec(r, v.work).failure.None? {
        RaisedFails(Exec(r, v.work).state, NextPlace(place, v.state), v.state, ctx);
      }
    }
  }

  lemma RaiseFails(r: RunState, before: seq<Node>, f: Failure)
    ensures Exec(r, before + [Raise(f)]).failure.Some?
  {
    ExecConcat(r, before, [Raise(f)]);
    if Exec(r, before).failure.None? {
      assert ExecNode(Exec(r, before).state, Raise(f)).failure == Some(f);
    }
  }

  lemma StepFails(r: RunState, t: Timing, body: seq<Node>, f: Failure)
    ensures Exec(r, [StepOf(Answer, t, body + [Raise(f)])]).failure.Some?
  {
    var node := StepOf(Answer, t, body + [Raise(f)]);
    if r.trail.open.None? {
      RaiseFails(r.(trail := Entered(r.trail, Answer, t.at)), body, f);
    }
    assert ExecNode(r, node).failure.Some?;
  }

  lemma VisitFails(r: RunState, place: Place, s: GraphState, ctx: Context)
    requires VisitOf(place, s, ctx).raised
    ensures Exec(r, VisitOf(place, s, ctx).work).failure.Some?
  {
    if place == AtAnswer && ctx.hasPrompt {
      match ctx.chatEnd
      case NoResult => StepFails(r, ctx.chat, Speak(ctx.deltas), Crashed);
      case Unavailable(code, message) => StepFails(r, ctx.chat, Speak(ctx.deltas), ProviderUnavailable(code, message));
    } else {
      RaiseFails(r, [], Crashed);
      assert [] + [Raise(Crashed)] == [Raise(Crashed)];
    }
  }

  /** The turn's work around the graph, which writes nothing: reading the core memory and the offer
      before it, redacting and queueing re-renders after it. */
  function TurnWork(before: seq<Node>, ctx: Context, after: seq<Node>): seq<Node> {
    before + GraphRun(ctx).work + after
  }

  function TurnAnswer(ctx: Context): Option<string> {
    GraphRun(ctx).state.answer
  }

  /** Work that fails nowhere has written the answer. */
  lemma WorkWritesTheAnswer(r: RunState, before: seq<Node>, ctx: Context, after: seq<Node>)
    requires Faithful(ctx) && WritesNothing(before) && WritesNothing(after)
    requires Exec(r, TurnWork(before, ctx, after)).failure.None?
    ensures TurnAnswer(ctx) == Some(Spoken(TurnWork(before, ctx, after)))
  {
    ExecConcat(r, before + GraphRun(ctx).work, after);
    ExecConcat(r, before, GraphRun(ctx).work);
    if GraphRun(ctx).raised {
      RaisedFails(Exec(r, before).state, AtIntent, GraphState(None, None, false), ctx);
    } else {
      StreamedTextIsTheAnswer(ctx);
      SpokenConcat(before + GraphRun(ctx).work, after);
      SpokenConcat(before, GraphRun(ctx).work);
      assert "" + Spoken(GraphRun(ctx).work) + "" == Spoken(GraphRun(ctx).work);
    }
  }

  /** On every completed turn, whatever its route and whatever failed on the way, the token texts in
      the stream concatenate to the stored output. */
  lemma CompletedTurnStreamsItsOutput(turn: Turn, before: seq<Node>, ctx: Context, after: seq<Node>, c: Closing)
    requires Created(turn) && Uncancelled(c) && !c.traceFails
    requires Faithful(ctx) && WritesNothing(before) && WritesNothing(after)
    requires RunTurn(turn, TurnWork(before, ctx, after), TurnAnswer(ctx), c).final.status == TurnCompleted
    ensures var e := RunTurn(turn, TurnWork(before, ctx, after), TurnAnswer(ctx), c);
      e.row.output == Some(Concat(TextsOf(e.state.trail.queue)))
  {
    var nodes := TurnWork(before, ctx, after);
    StreamGrammar(turn, nodes, TurnAnswer(ctx), c);
    WorkWritesTheAnswer(Begin(turn), before, ctx, after);
    TurnTexts(turn, nodes, TurnAnswer(ctx), c);
  }

  /** The same for a turn the spend gate stopped. */
  lemma BlockedTurnStreamsItsOutput(turn: Turn, at: int, notice: string, reply: string, measured: int, w: Write,
                                    c: Closing)
    requires Created(turn) && Uncancelled(c) && !c.traceFails
    ensures match RunBlocked(turn, at, notice, reply, measured, w, c)
      case Abandoned(_) => true
      case BlockedEnded(e) => e.final.status == TurnCompleted ==>
          e.final.output == Some(Concat(TextsOf(e.state.trail.queue)))
  {
    BlockedTurnEnds(turn, at, notice, reply, measured, w, c);
    assert Concat([reply]) == reply;
  }

  /** One node of the walk: its work, and unless that fails the rest of the walk. */
  lemma WalkOn(r: RunState, place: Place, s: GraphState, ctx: Context)
    requires place != AtEnd
    ensures var v := VisitOf(place, s, ctx);
      var first := Exec(r, v.work);
      && (v.raised ==> first.failure.Some?)
      && (first.failure.Some? ==> Exec(r, Walk(place, s, ctx).work) == first)
      && (!v.raised ==> Walk(place, s, ctx).state == Walk(NextPlace(place, v.state), v.state, ctx).state)
      && (!v.raised && first.failure.None? ==>
            Exec(r, Walk(place, s, ctx).work) == Exec(first.state, Walk(NextPlace(place, v.state), v.state, ctx).work))
  {
    var v := VisitOf(place, s, ctx);
    if v.raised {
      VisitFails(r, place, s, ctx);
    } else {
      ExecConcat(r, v.work, Walk(NextPlace(place, v.state), v.state, ctx).work);
    }
  }

  /** The walk itself: each node's work is done before the next node is chosen. */
  method RunGraph(run: Run, ctx: Context) returns (answer: Option<string>, failure: Option<Failure>)
    requires run.Valid()
    modifies run.store, run.queue, run.trail, run.tally
    ensures run.Valid() && run.store.row == old(run.store.row)
    ensures Ran(run.View(), failure) == Exec(old(run.View()), GraphRun(ctx).work)
    ensures failure.None? ==> answer == TurnAnswer(ctx)
  {
    var place, state := AtIntent, GraphState(None, None, false);
    failure, answer := None, None;
    ghost var all := Exec(run.View(), GraphRun(ctx).work);
    while place != AtEnd && failure.None?
      invariant run.Valid() && run.store.row == old(run.store.row)
      invariant failure.None? ==> all == Exec(run.View(), Walk(place, state, ctx).work)
      invariant failure.None? ==> GraphRun(ctx).state == Walk(place, state, ctx).state
      invariant failure.Some? ==> all == Ran(run.View(), failure)
      decreases failure.None?, Rank(place)
    {
      var v := VisitOf(place, state, ctx);
      ghost var before := run.View();
      failure := run.Perform(v.work);
      WalkOn(before, place, state, ctx);
      if !v.raised {
        state := v.state;
        place := NextPlace(place, state);
      }
    }
    answer := state.answer;
  }
}
