# A verified model of Second Mind's turn protocol and its set-at-a-time procedures

Second Mind answers each message with a *turn*. On the server a turn's steps are recorded and published
through a trail, the runner brings the turn to one terminal status, and the turn graph streams the reply
through the same queue. In the browser the frames of that queue are folded into a turn, its step rows are
rebuilt from events and starts, and a pacer walks the screen towards those rows. The repository claims that a
live turn and the same turn reloaded are identical. This project states that claim over all runs and proves
it, with the exact conditions under which it holds; it then does the same for the two database procedures that
copy a persona template and empty expired guests' workspaces, and for the arithmetic and codecs around them.

`dafny verify dfyconfig.toml` checks everything.

## How the model is laid out

| modules | what they model |
|---|---|
| `Basics`, `Events` | strings, numerals; events, turns and the items of a turn's stream |
| `TrailModel`, `FactOrder` | rows, fetch merge and facts from events and starts; what facts need of the order |
| `Protocol` | what a reader can conclude from any prefix of a stream |
| `TurnTrail`, `TurnRunner`, `TurnLifecycle`, `TurnRun` | the trail, a turn's work, its ending, and the objects that carry it |
| `WrittenEvents` | what a program of work writes, loses and emits, said on the program |
| `TurnGraph` | routing and streamed text |
| `Conversation` | the relay to the client and the client's reducer |
| `LiveReload` | writer and reader together |
| `Pacing`, `SavedLinks`, `PacedTrail`, `ScreenRows` | the pacer; the goals of a turn's stream; the pacer fed by them; what is on screen |
| `Schema`, `GuestExpiry`, `GuestSpend`, `ExpiryProcedure` | tables, keys and DELETE; guest expiry and spend |
| `PersonaCopy`, `CopyByColumns`, `CopyProcedure`, `CopiedTurns` | the persona copy, column by column, and the order of its history |
| `Prices`, `Ids`, `Sessions`, `ClientAddress`, `Backfill` | charging, identifiers, session tokens, forwarded addresses, paging |

The awaited work of a turn is a program of `Node`s: what is emitted, said, started, reported and raised, in
order, and how each write ends (stored, an error, or a cancellation). A theorem about every program is a
theorem about every run. Classes (`Trail`, `Run`, `Hook`, `Pacer`, the two `Transaction`s) are proved to do
what the specification functions say, and the properties are proved of those functions.

A transaction sees its rows in an order the database chooses: `CopyPersonaTemplate` takes that order, and
the ids it generates, as parameters, and is proved for all of them.

## What does not hold, and exactly when it does

* Live and stored events differ exactly when another writer appended to the turn (`LiveMeetsReload`); loading
  the events again repairs the rows (`PolledTurnMeetsReload`).
* A step whose record could not be written stays on a live turn as an extra row (`LiveMeetsReload`).
* A failed turn keeps its streamed text on screen, and a reload does not show it; a turn whose row could not be
  stored is failed on screen and running in the store (`LiveOutcome`).
* `report` inside an open step breaks the stream's discipline, and nothing in the trail forbids it
  (`ReportInsideStepBreaks`, `NestedReportShowsTheWrongStep`).
* If asking for the trace status raises, the stream ends with no terminal item (`TraceErrorLosesTheTerminal`); a
  blocked turn cancelled while its step is written has no end marker either (`BlockedTurnEnds`).
* A pacer whose goal takes back a finished state never shows the goal (`CatchesUpExactlyWhenCompatible`). The
  stream of a turn that saves links can make the goal do so: exactly when its first link is settled and
  some link is pending, or the first was refused and another was not, or the first failed and another did not
  (`GoalsOfAStreamGrow`, `ScreenMeetsReloadExactlyWhen`; `FetchBatchSticksThePacer` is the smallest such turn, one
  link refused at once and one to be read).
* A live turn is shown twice exactly when a page, or a turn added, brought it before its row knew its id, or
  `loadEarlier` brings it later (`HistoryRace`).
* Events loaded into a turn while its frames still arrive, as history does for every turn on its page, are the
  stored ones in the end exactly when the last load held just the events whose frames had arrived
  (`LoadsMidStream`).
* A trigger and its routine item drift apart by the days beyond whole weeks (`TriggerGapOfARoutine`).
* A copied turn's parent, or an entity's creating turn, becomes null when it is not in the template; where the
  column may not be null, or a trigger's spec names such an entity, the copy raises (`LooseReferences`,
  `InsertInPlace`). It also raises when the target, although it has no items and no turns, has a category or a
  vocabulary term with a slug of the template's (`TakenSlugStopsTheCopy`).
* Ids made by `uuid_v7_at` hold six bytes of milliseconds, so turns on different sides of 1970 do not sort as
  they started (`CopiedTurnsKeepTheirOrder`).

## Model

| member | source | states |
|---|---|---|
| `LiveReload.LiveEqualsReload` | frontend/src/trail/model.ts:1-5 | for every run of a turn whose writes succeed and which nobody else writes to, once the stream has ended the live turn's events, its rows at any time and its facts are those of the reloaded turn |
| `LiveReload.LiveShowsWhatWasWritten` | backend/src/secondmind/agent/trail.py:56-109 | and those events are exactly what the turn's program emits, each step's events before its record, then the turn's error and its quota, in that order and nothing else |
| `LiveReload.LiveMeetsReload` | frontend/src/hooks/useConversation.ts:180-206 | the exact conditions: live and stored events are equal if and only if nobody else appended to the turn; then the rows before the fetch merge are equal if and only if no step's record was lost, and otherwise the live turn has one extra row for each lost record |
| `LiveReload.LiveOutcome` | frontend/src/hooks/useConversation.ts:194-211 | the shown status equals the reloaded one if and only if the row was stored; the shown reply equals the reloaded one if and only if the turn completed or nothing was streamed |
| `LiveReload.PolledTurnMeetsReload` | frontend/src/hooks/useConversation.ts:102-119 | after the worker has appended any events to a finished live turn, loading its events makes its rows and facts those of the reloaded turn, although it still holds its starts |
| `LiveReload.StartsMatter` | frontend/src/trail/model.ts:61-65 | starts change the rows if and only if there are more of them than recorded steps, and then there is one row for each start |
| `LiveReload.EveryPrefixShowsItsSteps` | frontend/src/trail/model.ts:41-67 | at every prefix of the stream of a turn whose writes succeed and whose reports come between steps: starts are 0 or 1 ahead of recorded steps, the rows before the merge are the recorded steps and one running row for the open step, and the rows' own events followed by the trailing ones are all other events in order |
| `LiveReload.EveryPrefixGrows` | frontend/src/trail/model.ts:41-67 | from a prefix of such a stream to a longer one rows are only added, keep key, step and start, and never change once finished |
| `LiveReload.StreamKeepsDiscipline` | backend/src/secondmind/agent/trail.py:56-101 | the writer's half: such a turn's whole stream starts and records steps one at a time and numbers its events upwards |
| `LiveReload.NestedReportShowsTheWrongStep` | backend/src/secondmind/agent/trail.py:88-101 | a concrete run in which a report inside an open step shows the reported step a second time as running and the open step not at all |
| `LiveReload.LiveHolds` | frontend/src/hooks/useConversation.ts:178-211 | what a client holds of any finished stream: exactly its texts, starts and events, the terminal turn, and its own chunks if and only if the turn failed or they add up to the output |
| `LiveReload.LiveIsNamed` | frontend/src/hooks/useConversation.ts:178-211 | the rest of that row: the stored turn's id and start, what it was sent with, the last frame's quota, and an error if and only if the turn failed |
| `LiveReload.PartStepCount` | backend/src/secondmind/agent/trail.py:103-105 | a numbered selection of a numbered log's events records at most as many steps as the log |
| `TrailModel.StepViewsIgnoreArrivalOrder` | frontend/src/trail/model.ts:41-67 | events with distinct numbers give the same rows in whatever order they arrived |
| `TrailModel.SortIgnoresOrder` | frontend/src/trail/model.ts:44 | two arrangements of events with distinct numbers sort to one list |
| `TrailModel.KeysDiffer` | frontend/src/trail/model.ts:52 | a row key determines its step and its position, so keys are unique |
| `TrailModel.ReplayRows` | frontend/src/trail/model.ts:45-60 | one row for each recorded step, in order, with that step's outcome, start, latency and position |
| `TrailModel.RowOfAStep` | frontend/src/trail/model.ts:43-60 | the row of any recorded step has that step's name, position, start and latency, the state its status stands for, and exactly the events since the step before it |
| `TrailModel.ReplayKeepsEvents` | frontend/src/trail/model.ts:43-60 | the rows' own events and then the pending ones are all non-step events in order |
| `TrailModel.ReplayGrows` | frontend/src/trail/model.ts:45-60 | more events never change the rows there are, and the trailing events only grow until a row takes them |
| `TrailModel.LatestIsLast` | frontend/src/trail/model.ts:70-74 | the latest fetches are exactly the last event of each link, each link once |
| `TrailModel.LatestInFirstOrder` | frontend/src/trail/model.ts:70-74 | and they come in the order in which the links were first read |
| `TrailModel.MergeShape` | frontend/src/trail/model.ts:81-106 | the merge leaves the other rows and their order alone and puts one fetch row, owning every fetch row's events, where the first one was, under its key |
| `TrailModel.MergeIsIdempotent` | frontend/src/trail/model.ts:81-106 | merging merged rows changes nothing |
| `TrailModel.MergedStateMeaning` | frontend/src/trail/model.ts:86-96 | the merged state by links: running for a quarter of an hour while one waits and done after it; then refused or failed when every link was, else done |
| `TrailModel.MergedRowReportsTheLastRead` | frontend/src/trail/model.ts:87-104 | while a link waits the merged row is timed from the save, afterwards it has the last read's time and latency |
| `TrailModel.StateDependsOnLastFetches` | frontend/src/trail/model.ts:86-96 | the merged state depends only on the clock, the head row and each link's last event |
| `TrailModel.ReadsInterleaveFreely` | frontend/src/trail/model.ts:69-96 | reads that keep each link's own order give one merged state however they interleave |
| `TrailModel.PolledWhileALinkWaits` | frontend/src/trail/model.ts:209-211 | a turn has a pending fetch if and only if the last event of one of its links is pending |
| `TrailModel.WaitingIsPolling` | frontend/src/trail/model.ts:209-211 | when fetch events occur only in fetch steps, the merged row waits if and only if the turn has a pending fetch |
| `TrailModel.FactsMeaning` | frontend/src/trail/model.ts:128-168 | single facts are the last event of their kind, lists all of their kind in order, the diff all diffs' entries in order, the reads the last event of each link |
| `TrailModel.FactsDependOnArrivalOrder` | frontend/src/trail/model.ts:128-168 | facts are not sorted: two intent events given out of order give another intent than in order |
| `FactOrder.FactsNeedKindsInOrder` | frontend/src/trail/model.ts:128-168 | facts are those of the sorted events whenever the events of each kind come in the order of their numbers, however the kinds are mixed |
| `FactOrder.FactsIgnoreTheMixing` | frontend/src/trail/model.ts:128-168 | two arrangements of one set of events, each with its kinds in order, give the same facts |
| `TrailModel.ComputeStepViews` | frontend/src/trail/model.ts:41-67 | the two loops compute the specified rows |
| `TrailModel.ComputeLatestFetches` | frontend/src/trail/model.ts:70-74 | the loop over the map computes the specified latest fetches |
| `TrailModel.ComputeFacts` | frontend/src/trail/model.ts:128-168 | the loop computes the specified facts |
| `Protocol.StartsPairWithRecords` | frontend/src/trail/model.ts:61-65 | in a disciplined stream starts and recorded steps pair up one to one, with at most one start ahead, the open step's |
| `Protocol.PrefixKeepsDiscipline` | backend/src/secondmind/agent/trail.py:63-101 | a stream that keeps the discipline kept it at every prefix |
| `Protocol.LiveRowsAre` | frontend/src/trail/model.ts:41-67 | the rows at any prefix of a disciplined stream, before the merge |
| `Protocol.LiveRowsKeepEvents` | frontend/src/trail/model.ts:41-67 | no event is lost or moved between the rows at any prefix |
| `Protocol.LiveRowAt` | frontend/src/trail/model.ts:45-65 | row i is the i-th started step, finished if and only if that step is recorded, and then the row the recorded events alone give |
| `Protocol.LiveRowKeysDiffer` | frontend/src/trail/model.ts:52-63 | no two rows of a disciplined stream share a key |
| `Protocol.LiveRowsGrow` | frontend/src/trail/model.ts:41-67 | rows only grow from a prefix to the whole stream |
| `Protocol.OwnEventsGrow` | frontend/src/trail/model.ts:43-65 | from a prefix to the whole stream a row's own events only grow |
| `TurnTrail.EmitKeeps` | backend/src/secondmind/agent/trail.py:56-60 | emitting keeps the trail consistent (what it does to the event itself is in `WrittenEvents.ExecWrites`): numbering, published being an increasing selection of stored, and starts sent equal to steps recorded, lost and open |
| `TurnTrail.EnterKeeps` | backend/src/secondmind/agent/trail.py:63-69 | so does starting a step |
| `TurnTrail.ExitKeeps` | backend/src/secondmind/agent/trail.py:70-86 | so does ending one, whether or not its body raised or its record was written |
| `TurnTrail.ReportKeeps` | backend/src/secondmind/agent/trail.py:88-101 | so does reporting one |
| `TurnTrail.ElsewhereKeeps` | backend/src/secondmind/agent/link_reading.py:259-265 | so does another writer's append to the same turn |
| `TurnTrail.ReportInsideStepBreaks` | backend/src/secondmind/agent/trail.py:88-101 | a report breaks the one-step-at-a-time discipline of the stream if and only if it is made inside an open step |
| `TurnTrail.ExitInStep` | backend/src/secondmind/agent/trail.py:74-84 | a stored step closes the stream's open step |
| `TurnTrail.ReportInStep` | backend/src/secondmind/agent/trail.py:88-101 | a stored report between steps leaves the stream between steps |
| `TurnTrail.TurnStore.AppendMany` | backend/src/secondmind/agent/turns.py:130-134 | all of a batch is stored, numbered on from the log, or none of it |
| `TurnTrail.TurnStore.AppendElsewhere` | backend/src/secondmind/agent/link_reading.py:259-265 | another writer's events are appended and not published |
| `TurnTrail.Trail.WriteBatch` | backend/src/secondmind/agent/trail.py:103-109 | a batch is stored and each stored event published in order; a failed write changes nothing |
| `TurnTrail.Trail.Emit` | backend/src/secondmind/agent/trail.py:56-60 | inside a step the event waits for the step, outside it is written at once |
| `TurnTrail.Trail.Enter` | backend/src/secondmind/agent/trail.py:63-69 | a step inside a step is refused before anything is sent; otherwise its start is sent and it is open |
| `TurnTrail.Trail.Exit` | backend/src/secondmind/agent/trail.py:70-86 | the step's events and its record go in one write; an error of that write is swallowed, a cancellation is not |
| `TurnTrail.Trail.Report` | backend/src/secondmind/agent/trail.py:88-101 | a start and then one batch of the events and the record, latency at least 0 |
| `TurnRunner.ExecKeeps` | backend/src/secondmind/agent/runner.py:410-421 | whatever a turn's work does and however its writes end, the trail stays consistent and every model call counted is stored, waiting or lost |
| `TurnRunner.StepRecordsItself` | backend/src/secondmind/agent/trail.py:70-86 | a step's record comes last in its one write, failed if and only if its body failed and else with the status set, timed as set or measured; the body's failure goes on unless the write is cancelled |
| `WrittenEvents.ExecWrites` | backend/src/secondmind/agent/trail.py:56-109 | conservation, for every program of work and every outcome of its writes: the log grows by exactly the events the program says are written, in order; the lost batches are exactly those whose write failed; the open step holds what waits for it; and the work fails as the program says |
| `WrittenEvents.WrittenInOrder` | backend/src/secondmind/agent/trail.py:56-101 | when every write is stored, nobody else writes and reports come between steps, what is written is each node's events in order: an emitted event itself, a call its event, a step its body's events and then one record, a report its events and then its record; up to the node that fails |
| `WrittenEvents.TurnRecords` | backend/src/secondmind/agent/runner.py:603-618 | so the log of a whole turn is what its work wrote, then its error event, then its quota event, and nothing else |
| `WrittenEvents.TurnResult` | backend/src/secondmind/agent/runner.py:603-618 | the final status, reply and error code by how the work ends |
| `WrittenEvents.BlockedTurnRecords` | backend/src/secondmind/agent/runner.py:620-642 | the log of a blocked turn is the notice and then the refused step's record, unless that write failed, and then its error and its quota |
| `TurnRunner.ModelsAreLastCalls` | backend/src/secondmind/agent/runner.py:192-201 | a step is listed if and only if a call served it, with the model of its last call |
| `TurnRunner.UsageOfOneMore` | backend/src/secondmind/agent/runner.py:185-203 | each call adds its own tokens and cost, and to the charged tokens its charge or else all its tokens |
| `TurnRunner.PromptsAreDistinct` | backend/src/secondmind/agent/runner.py:202-203 | the prompts are the non-empty ones the calls name, each once |
| `TurnRunner.ExecExtends` | backend/src/secondmind/agent/runner.py:455-457 | work only appends tokens, starts and recorded events to the queue; work that fails nowhere appends exactly the texts it writes, in order |
| `TurnRunner.ExecLosesNothing` | backend/src/secondmind/agent/trail.py:82-86 | when every write succeeds nothing is lost; when nobody else writes nothing is foreign |
| `TurnRunner.ExecInStep` | backend/src/secondmind/agent/trail.py:62-101 | work whose writes succeed and whose reports come between steps keeps the stream inside a step exactly while one is open |
| `TurnLifecycle.StreamGrammar` | backend/src/secondmind/agent/runner.py:338-358 | for every pattern of success, error and cancellation of the awaited work: the start, then tokens, starts and events, then one terminal item and the end marker; completed if and only if the work failed nowhere, answered and was stored, and then with the answer; failed with no output |
| `TurnLifecycle.TraceErrorLosesTheTerminal` | backend/src/secondmind/agent/runner.py:1095-1105 | the stream has a terminal item if and only if asking for the trace backend's status did not raise; if it did, the stored row keeps running |
| `TurnLifecycle.UsageIsConserved` | backend/src/secondmind/agent/runner.py:185-203 | a finished turn's usage, meter by meter, is the sum over its stored calls plus the calls lost with unwritten batches; equal to the stored sum if and only if the lost calls used nothing; with every write stored its models and prompts are those of the stored calls |
| `TurnLifecycle.BlockedTurnEnds` | backend/src/secondmind/agent/runner.py:620-642 | once its task has started, a blocked turn's stream ends if and only if the task is not cancelled while its step is written; then it has the template reply as its one token and output |
| `TurnLifecycle.FinishQueue` | backend/src/secondmind/agent/runner.py:1088-1160 | finishing appends at most recorded events, then the terminal item, then the end marker, and writes no text |
| `TurnLifecycle.FinishKeeps` | backend/src/secondmind/agent/runner.py:1088-1160 | finishing keeps the trail consistent and the stored calls what they were |
| `TurnRun.Tally.Add` | backend/src/secondmind/agent/runner.py:191-203 | the kept totals, models and prompts are those of all calls added |
| `TurnRun.Run.constructor` | backend/src/secondmind/agent/runner.py:332-353 | a turn is stored and its stream opens with it |
| `TurnRun.Run.Perform` | backend/src/secondmind/agent/runner.py:460-602 | performing work on the objects has exactly the specified effect and failure |
| `TurnRun.Run.PerformNode` | backend/src/secondmind/agent/trail.py:62-101 | so does each piece of it |
| `TurnRun.Run.Finish` | backend/src/secondmind/agent/runner.py:1088-1160 | the finishing method leaves the specified queue, stored row and final turn |
| `TurnRun.Run.RunToEnd` | backend/src/secondmind/agent/runner.py:434-618 | a whole run of a turn is the specified one |
| `TurnRun.Run.RunBlocked` | backend/src/secondmind/agent/runner.py:620-642 | a blocked run is the specified one, finished or abandoned |
| `TurnGraph.PiecesAreLossless` | backend/src/secondmind/agent/graph.py:89-91 | the pieces a reply is streamed in concatenate to it, for every string |
| `TurnGraph.PiecesKeepWords` | backend/src/secondmind/agent/graph.py:89-91 | no piece is empty, every piece but the first starts a word and every piece but the last ends in whitespace |
| `TurnGraph.StreamedTextIsTheAnswer` | backend/src/secondmind/agent/graph.py:147-237 | for every route through the graph that raises nothing there is an answer, and the texts written are that answer |
| `TurnGraph.SavesTheMessage` | backend/src/secondmind/agent/graph.py:93-160 | a turn with a secret, or with a yes to the offer to save, or classified as a save, visits the ingest node and then the triggers; these are the intent's text, all the work and the answer. With the next five rows every context is covered |
| `TurnGraph.RecallsOnly` | backend/src/secondmind/agent/graph.py:93-185 | a turn classified as a recall visits the recall node alone; without a recaller it fails |
| `TurnGraph.SavesAndRecalls` | backend/src/secondmind/agent/graph.py:93-185 | one classified as both saves and then recalls, after a blank line if the save said anything |
| `TurnGraph.SavesAndCannotRecall` | backend/src/secondmind/agent/graph.py:93-185 | and without a recaller it fails once it has saved |
| `TurnGraph.Corrects` | backend/src/secondmind/agent/graph.py:93-200 | a yes to the offer to correct with no secret, or a classified correction, visits the correct node, and goes on to save what is not a correction |
| `TurnGraph.Chats` | backend/src/secondmind/agent/graph.py:93-237 | anything else is answered by the provider; with no prompt or no result the turn fails, and how |
| `TurnGraph.CompletedTurnStreamsItsOutput` | backend/src/secondmind/agent/runner.py:585-618 | on every completed turn, whatever its route, the token texts concatenate to the stored output |
| `TurnGraph.BlockedTurnStreamsItsOutput` | backend/src/secondmind/agent/runner.py:637-642 | the same on a completed blocked turn |
| `TurnGraph.SecretsSkipTheModel` | backend/src/secondmind/agent/graph.py:97-144 | with a secret found the message is saved and not recalled, and the intent step does not depend on what a model would say |
| `TurnGraph.VisitSpeaks` | backend/src/secondmind/agent/graph.py:147-237 | each node adds to the stream what it adds to the answer |
| `TurnGraph.RaisedFails` | backend/src/secondmind/agent/graph.py:163-231 | a missing collaborator, a missing prompt and a provider stream with no result each fail the turn's work |
| `TurnGraph.RunGraph` | backend/src/secondmind/agent/graph.py:240-268 | walking the graph node by node does the specified work and gives its answer |
| `Conversation.RelayKeepsOrder` | backend/src/secondmind/api/sse.py:52-73 | the relay adds, drops and reorders nothing, whatever keep-alives come between |
| `Conversation.Relay` | backend/src/secondmind/api/sse.py:52-73 | the loop sends every item up to the end marker and one keep-alive for each wait that times out |
| `Conversation.ClientHoldsTheStream` | frontend/src/hooks/useConversation.ts:180-193 | before the terminal frame the row holds exactly the texts, starts and events of the stream, in order |
| `Conversation.CompletedShowsItsOutput` | frontend/src/hooks/useConversation.ts:194-206 | a completed row shows the stored output, as the streamed chunks if and only if they add up to it |
| `Conversation.RowSurvivesEverything` | frontend/src/hooks/useConversation.ts:71-74 | however a live turn's frames interleave with sends, pages of history and loads of events, its row is there once and is what its own frames and events make of it |
| `Conversation.LoadsCommute` | frontend/src/hooks/useConversation.ts:76-100 | loads of different turns' events may finish in either order |
| `Conversation.LoadsIntoALiveTurn` | frontend/src/hooks/useConversation.ts:76-100 | a row whose events are loaded while its frames arrive is the fold of its frames, with exactly their events if nothing was loaded, and otherwise if and only if the last load held just the events whose frames had arrived |
| `Conversation.HistoryRace` | frontend/src/hooks/useConversation.ts:129-132 | for any list, pages and actions: a live turn is shown once if and only if no page or added turn brought it before its first frame gave its row the id, and no earlier page brings it afterwards; otherwise more than once |
| `Conversation.Hook.Patch` | frontend/src/hooks/useConversation.ts:71-74 | matching rows are changed and the others stay, in place |
| `Conversation.Hook.Send` | frontend/src/hooks/useConversation.ts:155-220 | a send is its new row, its frames one by one, and a failed row if the stream breaks |
| `Conversation.Hook.MergeHistory` | frontend/src/hooks/useConversation.ts:129-132 | a page is put before the rows there are, without the turns already there |
| `Conversation.OneOlderTurn` | frontend/src/hooks/useConversation.ts:125-155 | pages go before the rows there are, oldest turn first, each turn as its stored row; the first page leaves out turns that have a row |
| `Conversation.OneTurnAdded` | frontend/src/hooks/useConversation.ts:225-231 | a turn made elsewhere goes after the rows there are, as a live row, unless it has a row |
| `Conversation.Hook.AddTurn` | frontend/src/hooks/useConversation.ts:225-231 | a turn made elsewhere is added once |
| `Conversation.Hook.LoadEvents` | frontend/src/hooks/useConversation.ts:76-100 | answers are patched in in the order they come |
| `Conversation.SendShowsItsFrames` | frontend/src/hooks/useConversation.ts:155-220 | a send under a new key leaves one row with that key, the fold of its frames |
| `Conversation.BrokenSendFails` | frontend/src/hooks/useConversation.ts:214-216 | a stream that breaks leaves that row failed, with what its frames brought and the error's text |
| `LiveReload.SentRowIsTheLiveTurn` | frontend/src/hooks/useConversation.ts:178-211 | over the wire and through the hook, whatever keep-alives came between, that row is the fold of the turn's own queue |
| `LiveReload.LoadsMidStream` | frontend/src/hooks/useConversation.ts:126-134 | after any interleaving of a turn's frames with sends, pages and loads: with no load into it the row is the live turn; otherwise its events are the stored ones if and only if the last load held just the events whose frames had arrived, and then the row is the live turn with the reloaded rows and facts |
| `LiveReload.CompletedReplyNeverJumps` | frontend/src/hooks/useConversation.ts:194-206 | on every completed turn of the graph, whatever its route, the client keeps the chunks it was streamed, and they are the stored and the reloaded output |
| `Pacing.NextFromMeaning` | frontend/src/trail/pacing.ts:13-22 | the next change is the finish of the first row that is over, or else the first missing row, and nothing before it is due |
| `Pacing.ComputeNextChange` | frontend/src/trail/pacing.ts:13-22 | the scanning loop finds it |
| `Pacing.EveryRunIsSane` | frontend/src/trail/pacing.ts:40-114 | in every reachable state, whatever the goals and whenever timers fire: the budget is in 0..400, a timer is armed unless a tick would change nothing, and a waiting finish will be honest |
| `Pacing.TickKeepsAwake` | frontend/src/trail/pacing.ts:63-76 | after every tick a timer is armed or nothing is left to change |
| `Pacing.TickCharges` | frontend/src/trail/pacing.ts:86-101 | a change waits for what the budget pays for its dwell, or 40 ms once the budget is 0 |
| `Pacing.DwellsAreCapped` | frontend/src/trail/pacing.ts:4-5 | over any run the dwells add up to at most 400 ms, and the budget is what is left |
| `Pacing.TickProgress` | frontend/src/trail/pacing.ts:103-112 | a tick adds at most one row, at the end, running, within the goal, and never returns a finished row to running |
| `ScreenRows.NothingToChange` | frontend/src/trail/pacing.ts:63-76 | a tick with nothing to change disarms the timer and refreshes exactly the rows that agree in state |
| `ScreenRows.AddsTheNextRow` | frontend/src/trail/pacing.ts:77-114 | a tick at a missing row adds the goal's row at that place, running and with no latency, or waits 40 ms for it once the budget is spent |
| `ScreenRows.FinishesTheFirstRow` | frontend/src/trail/pacing.ts:77-114 | a tick at a row that is over takes the goal's row whole, or waits what is left of 240 ms as far as the budget pays, and 40 ms when it pays nothing |
| `ScreenRows.EveryRowWasTold` | frontend/src/trail/pacing.ts:63-114 | in every reachable state row i on screen is row i of a goal handed over so far, as told or still running |
| `ScreenRows.ScreenKeepsSteps` | frontend/src/trail/pacing.ts:63-114 | while the goals keep their steps, the rows on screen have the keys, steps and starts of the current goal's first rows |
| `ScreenRows.DoneByThen` | frontend/src/trail/pacing.ts:3-6 | on-time timers settle any reachable state within 400 ms and 80 ms for each row of the goal |
| `Pacing.FinishIsHonest` | frontend/src/trail/pacing.ts:86-113 | a row that a tick shows as finished has been shown running for 240 ms, or the budget is 0 |
| `Pacing.ShownSince` | frontend/src/trail/pacing.ts:106-108 | a row's dwell is measured from the tick that first showed it, running |
| `Pacing.SettlesInTime` | frontend/src/trail/pacing.ts:63-114 | for a fixed goal and on-time timers the ticks end by the deadline: what is pending, the remaining budget and 40 ms for each further outstanding change |
| `Pacing.OnTimeTickDecreases` | frontend/src/trail/pacing.ts:63-114 | the termination measure: each on-time tick makes a change or gets nearer to one |
| `Pacing.CatchesUpExactlyWhenCompatible` | frontend/src/trail/pacing.ts:63-114 | the ticks end at the goal if and only if the goal has not taken back a row or a finished state that is on screen |
| `Pacing.GrowingGoalsStayCompatible` | frontend/src/trail/pacing.ts:40-45 | while goals only grow every reachable state can still reach its goal |
| `Pacing.RunCatchesUp` | frontend/src/trail/pacing.ts:63-114 | so after any run with growing goals the last goal is reached by the deadline |
| `Pacing.SettleFires` | frontend/src/trail/pacing.ts:63-76 | settling is a run: some sequence of timers brings any state to its settled one |
| `Pacing.Pacer.Update` | frontend/src/trail/pacing.ts:40-45 | a new goal arms a timer only if none is armed |
| `Pacing.Pacer.Dispose` | frontend/src/trail/pacing.ts:47-50 | the timer is cleared and nothing else |
| `Pacing.Pacer.Tick` | frontend/src/trail/pacing.ts:63-114 | the tick on the object's fields is the specified one |
| `PacedTrail.ScreenMeetsReload` | frontend/src/trail/pacing.ts:118-131 | end to end, for a turn whose links, if it saves any, never go back: however its stream was read and paced, the screen comes to show exactly the reloaded rows, by the deadline |
| `PacedTrail.ScreenMeetsReloadExactlyWhen` | frontend/src/trail/pacing.ts:118-131 | for a turn that saves its links at most once every reading and pacing of its stream ends at the reloaded rows if and only if it has no link, or the first one is still to be read, or none is and all were refused, all failed or the first was read |
| `PacedTrail.ArrivesExactlyWhen` | frontend/src/trail/pacing.ts:40-114 | the same for any orderly stream and its own rows: one way by growing goals, the other by a reading after which the pacer never shows them |
| `PacedTrail.GoalsOfAStreamGrow` | frontend/src/trail/model.ts:81-106 | the goals at successive prefixes and times only grow if and only if the links never go back: no finished state of the merged row is taken back |
| `SavedLinks.MergedStateByStatus` | frontend/src/trail/model.ts:86-96 | with one event for each link the merged state is a function of the statuses, the step's own state and its age |
| `SavedLinks.FetchStepSeen` | frontend/src/trail/model.ts:81-106 | two prefixes that have the fetch step see the same row of it, the earlier one the first of the later one's links, and no more links once the step is recorded |
| `SavedLinks.FirstLink` | backend/src/secondmind/links/saver.py:281-310 | between no link and all of them there is a prefix at which exactly one has been reported |
| `PacedTrail.FetchBatchSticksThePacer` | frontend/src/trail/model.ts:81-106 | a concrete save of two links, one refused and one pending, whose goals go from refused back to running, after which the screen never reaches its goal |
| `ScreenRows.GoalRowAt` | frontend/src/trail/model.ts:41-106 | at every prefix, row i the client shows is the i-th started step that has a row, with that step's key; every step but a second fetch has one |
| `ScreenRows.ScreenRowsAreSteps` | frontend/src/trail/pacing.ts:118-131 | however an orderly stream is read and paced, at every moment row i on screen bears the key and name of the i-th step that has a row, and its start unless several steps fetch |
| `ScreenRows.KeysOnScreenDiffer` | frontend/src/trail/pacing.ts:118-131 | so no two rows on screen ever share a key |
| `Schema.DeleteKeepsIntegrity` | backend/migrations/versions/0002_memory.py:308-335 | a DELETE with its cascades, nulled keys and blocking keys leaves every composite foreign key intact |
| `Schema.KeysByColumn` | backend/migrations/versions/0002_memory.py:308-335 | each column that names a row is a key to the table it names, and holds, nulls or cascades as declared |
| `GuestExpiry.ExpiryNeverRaises` | backend/migrations/versions/0008_guests.py:36-72 | with every key intact the procedure empties exactly what is due, marks it and returns its number |
| `GuestExpiry.NoCascadeFires` | backend/migrations/versions/0008_guests.py:49-68 | each DELETE removes the rows it names and no others |
| `GuestExpiry.NothingHolds` | backend/migrations/versions/0008_guests.py:49-68 | no key without a cascade holds a DELETE back |
| `GuestExpiry.StatementEmpties` | backend/migrations/versions/0008_guests.py:50-68 | each statement removes the expired workspaces' rows from its table, nulls the ledger's turns or resets the self entities, and does nothing else |
| `GuestExpiry.IntegrityAfterEachStatement` | backend/migrations/versions/0008_guests.py:50-68 | referential integrity holds after every statement |
| `GuestExpiry.ExpiredByColumns` | backend/migrations/versions/0008_guests.py:40-71 | who is expired, by columns: a workspace whose owner is a guest created before the bound, not yet expired, of one of the three kinds, is marked with the time and keeps only its self entity, described as nothing, and its ledger rows with no turn; every other workspace keeps itself and every row |
| `GuestExpiry.CountedByColumns` | backend/migrations/versions/0008_guests.py:40-71 | the count is the number of workspaces newly marked; no workspace, user or row is new |
| `GuestExpiry.RepeatExpiresNothing` | backend/migrations/versions/0008_guests.py:42-48 | a repeat with the same or an earlier bound returns 0 and changes nothing |
| `GuestSpend.SpendIsKept` | backend/migrations/versions/0008_guests.py:27-34 | guest_spend, and each provider's global_spend, are the same after expiry, since every moment |
| `GuestSpend.LedgerKeepsRows` | backend/migrations/versions/0008_guests.py:86-94 | every ledger row stays, with everything but its turn |
| `GuestSpend.OneMoreRow` | backend/migrations/versions/0008_guests.py:27-34 | what a ledger row adds to each total, by its columns |
| `ExpiryProcedure.Transaction.DeleteFrom` | backend/migrations/versions/0008_guests.py:50-68 | a statement applies whole or fails the transaction, and after a failure none has an effect |
| `ExpiryProcedure.ExpireGuestWorkspaces` | backend/migrations/versions/0008_guests.py:36-72 | the statements in their order have the specified effect and count |
| `PersonaCopy.CopyIsABijection` | backend/migrations/versions/0007_persona.py:78-237 | in every copied table, template rows map one to one onto the new rows, all of them in the target |
| `PersonaCopy.ReferencesCommute` | backend/migrations/versions/0007_persona.py:129-232 | a foreign key of the copy leads to the copy of what the template's leads to (the copy's own self entity for the template's) and is null just when it was |
| `PersonaCopy.LooseReferences` | backend/migrations/versions/0007_persona.py:107-201 | for each column the statements map: a reference with no foreign key names the copy of what the template's named (the copy's own self entity for the template's), and is null if and only if that is not a row of the template |
| `CopyByColumns.EveryRow` | backend/migrations/versions/0007_persona.py:78-237 | every row of the template in the twelve tables, but its self entity, has one copy, in the target; nothing else is new in any table |
| `CopyByColumns.EveryReference` | backend/migrations/versions/0007_persona.py:87-232 | every column of every copied row that names a row names the image of what the template's named (the copy's self entity for the template's), or nothing when that is not in the template or was null; a copied turn is the caller's |
| `CopyByColumns.RequiredReferences` | backend/migrations/versions/0007_persona.py:87-232 | no column that may not be null is null in a copied row, nor is the entity of a trigger that had one |
| `CopyByColumns.EveryClock` | backend/migrations/versions/0007_persona.py:87-232 | every clock of every copied row, by column |
| `CopyByColumns.EveryDatum` | backend/migrations/versions/0007_persona.py:87-232 | every other column is the template's, and counters start at 0 |
| `CopyByColumns.SelfByColumns` | backend/migrations/versions/0007_persona.py:114-117 | the copy's self entity takes the template's description and the time of the call, and nothing else of it changes |
| `CopyByColumns.OnlyTemplatesAreCopied` | backend/migrations/versions/0007_persona.py:55-76 | a call succeeds only from a template, onto the caller's own persona copy with no items and no turns, each with its self entity, with days at least 0 |
| `CopyByColumns.WhatItTakes` | backend/migrations/versions/0007_persona.py:55-232 | and it succeeds whenever those guards are met, ids are new, slugs free and required references in the template |
| `PersonaCopy.ContentIsKept` | backend/migrations/versions/0007_persona.py:87-232 | content, kinds, descriptions, slugs and rules are the template's, counters start at 0 |
| `PersonaCopy.NothingElseChanges` | backend/migrations/versions/0007_persona.py:43-238 | every row that was there, in the template and every other workspace, is as it was, except the copy's own self entity |
| `PersonaCopy.SeedIsRecorded` | backend/migrations/versions/0007_persona.py:234-237 | the copy's workspace records the template's seed and the days it was moved; no other workspace and no user changes |
| `PersonaCopy.SelfIsDescribed` | backend/migrations/versions/0007_persona.py:114-117 | the copy's self entity takes the template's description and is otherwise itself |
| `PersonaCopy.CopyKeepsIntegrity` | backend/migrations/versions/0007_persona.py:43-238 | every foreign key holds after the call |
| `PersonaCopy.CopyKeepsSlugsUnique` | backend/migrations/versions/0002_memory.py:76 | slugs are still unique in every workspace after the call |
| `PersonaCopy.CopiedRowIsOk` | backend/migrations/versions/0007_persona.py:87-232 | every copied row's foreign keys hold when its statement runs, so no statement fails on one |
| `PersonaCopy.SelectedIsSource` | backend/migrations/versions/0007_persona.py:158-232 | the joins leave no template row out |
| `PersonaCopy.InsertInPlace` | backend/migrations/versions/0007_persona.py:87-232 | in its place a statement succeeds if and only if its rows' required references resolve, their generated ids are new and distinct, and the target has none of their slugs |
| `PersonaCopy.ItemClocks` | backend/migrations/versions/0007_persona.py:145-155 | an item's clocks move by the days, or for a routine by 7 times floor(days / 7), lagging by under a week; nulls stay null |
| `PersonaCopy.GapsAreKept` | backend/migrations/versions/0007_persona.py:99-232 | the gap between any two clocks that follow the call (of turns, relations, triggers, conversation keys, link sources and items with no rule, and confirmations and summaries) is the template's |
| `PersonaCopy.BookkeepingStartsAgain` | backend/migrations/versions/0007_persona.py:90-232 | every copied row but a turn is made now, and none was ever accessed |
| `PersonaCopy.TriggerGapOfARoutine` | backend/migrations/versions/0007_persona.py:200 | the gap between a trigger and its routine item is kept if and only if the days are whole weeks |
| `CopiedTurns.CopiedTurnsKeepTheirOrder` | backend/migrations/versions/0007_persona.py:26-42 | ids made by `uuid_v7_at` from the copied starts and any random bits sort as the low six bytes of those starts; so turns that started in different milliseconds between 1970 and 10889 sort by id as they started |
| `CopiedTurns.V7KeepsTime` | backend/migrations/versions/0007_persona.py:28-42 | the ids `uuid_v7_at` makes for smaller six-byte times are smaller, under any order-keeping reading of times and ids |
| `CopyProcedure.SucceedsInParts` | backend/migrations/versions/0007_persona.py:55-232 | a call with its guards passed succeeds if and only if every table's statement does, each seen from the template and the target as they were before the call |
| `CopyProcedure.TakenSlugStopsTheCopy` | backend/migrations/versions/0002_memory.py:155-157 | a target that has one of the template's slugs cannot be filled, although it passes every guard |
| `CopyProcedure.InsertRow` | backend/migrations/versions/0007_persona.py:90-232 | one row of a scan is passed over, inserted, or raises on a taken id, a taken slug, a null or a dangling key |
| `CopyProcedure.Transaction.InsertSelect` | backend/migrations/versions/0007_persona.py:90-232 | one INSERT ... SELECT, row by row, inserts every selected row under its new id or fails, and fails if and only if it must |
| `CopyProcedure.CopyPersonaTemplate` | backend/migrations/versions/0007_persona.py:43-238 | the procedure raises and changes nothing if and only if the call cannot succeed; otherwise it leaves the copy |
| `Prices.StandInPrice` | backend/src/secondmind/config/prices.py:49-64 | a model has the price listed for it; a fake one with none has the price of the one real provider that lists its name, if there is just one |
| `Prices.BaselineIsChargedOneForOne` | backend/src/secondmind/config/prices.py:66-77 | the baseline is charged exactly its tokens |
| `Prices.ChargedIsMonotone` | backend/src/secondmind/config/prices.py:74-77 | more tokens are never charged less |
| `Prices.ChargedIsNearExact` | backend/src/secondmind/config/prices.py:66-77 | the charge is within tokens/20000 + 1/2 of tokens times the exact ratio of 3 input and 1 output tokens' prices |
| `Prices.SplittingMovesTheChargeLittle` | backend/src/secondmind/config/prices.py:74-77 | splitting a call into k parts moves the total charge by at most (k + 1)/2 |
| `Prices.CostIsMonotone` | backend/src/secondmind/config/prices.py:79-88 | more tokens of any kind never cost less |
| `Prices.SummedCostsAreNearTheCombinedOne` | backend/src/secondmind/core/money.py:16-18 | k summed costs are within (k + 1)/2 of 1e-8 of the combined one |
| `Prices.RoundHalfEven` | backend/src/secondmind/core/money.py:16-18 | quantising is within half a unit of exact, and an even number on a tie |
| `Prices.RoundHalfUp` | backend/src/secondmind/config/prices.py:72-77 | rounding half up is within half a unit of exact, upwards on a tie |
| `Ids.NewIdFields` | backend/src/secondmind/core/ids.py:12-21 | version 7, variant 10, the timestamp and all 74 random bits can be read back |
| `Ids.LaterIsLarger` | backend/src/secondmind/core/ids.py:12-21 | a later millisecond gives a larger id whatever the random bits |
| `Ids.UuidV7AtFields` | backend/migrations/versions/0007_persona.py:28-42 | the database's id has the timestamp, version 7 and otherwise the bits of the random id |
| `Ids.SameFields` | backend/migrations/versions/0007_persona.py:28-42 | both builders agree on timestamp and version |
| `Ids.UuidV7AtOrder` | backend/migrations/versions/0007_persona.py:28-42 | ids made for a later millisecond are larger |
| `Sessions.VerifySign` | backend/src/secondmind/auth/sessions.py:42-61 | verifying a signed token gives the user until the expiry and nothing after it |
| `Sessions.AcceptedTokenShape` | backend/src/secondmind/auth/sessions.py:47-61 | an accepted token is four dot-free parts, the signer's version first and the MAC of the rest last |
| `Sessions.PurposesDoNotMix` | backend/src/secondmind/auth/sessions.py:33-34 | device and session signers reject each other's tokens |
| `ClientAddress.TrustedEntryIsChosen` | backend/src/secondmind/api/client_address.py:29-32 | whatever the client sent, with h trusted proxies and hops = h the address is the one the outermost trusted proxy appended |
| `ClientAddress.ShortHeaderFallsBack` | backend/src/secondmind/api/client_address.py:29-32 | with too few entries, or no trusted proxy, it is the connection's own address |
| `Backfill.TurnIds.Recent` | backend/src/secondmind/agent/turns.py:142-144 | a page is the newest turns older than the cursor, newest first, and full unless there are no more |
| `Backfill.TurnIds.Run` | backend/src/secondmind/agent/runner.py:1011-1023 | for any page size of at least 1 and any newer turns inserted meanwhile, every turn there was at the start is visited once, newest first, and counted once |
| `Backfill.PageVisits` | backend/src/secondmind/agent/runner.py:1016-1023 | a page continues the visit from the cursor without a gap or a repeat |

## Left out

- PacedTrail.GoalsOfAStreamGrow: asks that a stream starts at most one fetch step and reports each link once, inside it, as the link saver does (backend/src/secondmind/links/saver.py:281-310); for other goals `CatchesUpExactlyWhenCompatible` says when the screen reaches them.
- Conversation.HistoryRace: asks that a `turn.started` frame comes once for each turn, to the row of the send that made it, and that no page has a turn whose id is a client's key.
- LiveReload.LoadsMidStream: asks that the stream does not break; a broken one fails its row.
- TurnLifecycle.BlockedTurnEnds: begins once the task of `_run_blocked` has started; a task cancelled before its first step leaves no end marker either.
- LiveReload.EveryPrefixShowsItsSteps: asks that every write is stored and that reports come between steps; outside that, `ReportInsideStepBreaks` and `LiveMeetsReload` say what happens.
- TurnLifecycle.StreamGrammar: asks that the task is not cancelled inside `_finish`, and begins once the `try` of `_run` is entered.
- Backfill.TurnIds.Run: the indexer is the number of turns it has not indexed yet; embeddings and their ledger rows are not modelled.
- CopiedTurns.CopiedTurnsKeepTheirOrder: ids are integers in the tables and 128-bit numbers in `Ids`; the two readings of ids and of times are any that keep their order.
- GuestSpend.SpendIsKept: a total is a sum over a listing of the ledger's rows; the order of addition is a parameter.
- Columns that a statement copies unchanged are one column, `Content`; an entity's aliases, labels, attributes and summary are one, `Description`.
- Ids inside JSON columns other than a trigger's `entity_id`, a trigger spec whose `entity_id` is null or not a UUID, CHECK constraints, and UNIQUE constraints other than primary keys, the one self entity and the slugs: each of the others has an id of a copied row among its columns, and ids are copied one to one.
- The keys from workspaces and users to their owners: no statement modelled here deletes either.
- The memory writer, retrieval, corrections, link fetching, the trigger check and model providers: each is work with a stated contract (`Faithful`, `Clean`).
- `StepRun.take`, `run_action` (a turn with no stream), undo and confirm turns, and the code of `_run` before its `try`.
- Tracing, logging, enqueueing after the terminal item, and the content of quota and error messages.
- Floating point: the pacer's clock is a real number and `setTimeout` a time at which a tick may happen; the number of times the pacer publishes an unchanged list of rows.
- Time zones and daylight saving in interval addition: days are 86,400 seconds.
- Decimal's 28-digit context: prices are exact; `require` and the parsing of the price file.
- `int()` on digits other than ASCII, on underscores and on surrounding spaces; the MAC and the UUID text form are abstract functions with no dot in their output.
- `normalise`: parsing of IP addresses and the /64 of an IPv6 address.
- `touched`, `diffCounts`, `datesByMemory`, labels, components and animation: they would only add easy members.
- React's batching: a render may skip prefixes of the stream, which `PacedTrail.Follows` allows.
