// The vocabulary of a turn: its events, its stream and its stored row.

module Events {
  import opened Basics

  datatype AgentStep =
    | Understand | Extract | Dates | Entities | Reconcile | Enrich | Guard | Save | Answer
    | Undo | Confirm | Plan | Search | Rank | Triggers | Fetch | Blocked

  datatype StepStatus = Done | Held | Refused | Failed

  datatype FetchStatus = Pending | Full | Partial | ReadFailed | ReadRefused

  /** One model call: who served it and what it used. Cost is in 1e-8 dollars; `charged` is missing on
      calls recorded before quota was weighted. */
  datatype Call = Call(
    step: string, provider: string, model: string, prompt: Option<string>, fallbackFrom: Option<string>,
    input: nat, cached: nat, output: nat, cost: nat, charged: Option<nat>)

  /** A turn event. Payloads the model never looks into are kept as opaque text. */
  datatype Event =
    | StepEvent(step: AgentStep, status: StepStatus, startedAt: int, latencyMs: int)
    | FetchEvent(itemId: string, fetch: FetchStatus, body: string)
    | ModelCallEvent(call: Call)
    | IntentEvent(body: string)
    | DecisionEvent(body: string)
    | MemoryDiffEvent(entries: seq<string>)
    | RetrievalEvent(body: string)
    | CitationsEvent(body: string)
    | ToolCallEvent(body: string)
    | PolicyEvent(body: string)
    | ErrorEvent(code: string, body: string)
    | BlockedEvent(body: string)
    | QuotaEvent(body: string)
    | OtherEvent(body: string)

  datatype StoredEvent = StoredEvent(number: int, event: Event)

  // ------------------------------------------------------------------ usage of a turn

  datatype Usage = Usage(input: nat, cached: nat, output: nat, cost: nat, charged: nat)

  function NoUsage(): Usage {
    Usage(0, 0, 0, 0, 0)
  }

  datatype StepModel = StepModel(provider: string, model: string, prompt: Option<string>, fallbackFrom: Option<string>)

  // ------------------------------------------------------------------ turns and their stream

  datatype TurnStatus = TurnRunning | TurnCompleted | TurnFailed

  datatype Turn = Turn(
    id: string, input: string, output: Option<string>, status: TurnStatus, startedAt: int,
    errorCode: Option<string>, usage: Usage, models: map<string, StepModel>, prompts: seq<string>)

  /** What travels on a turn's queue; `EndOfStream` is the None that ends it. */
  datatype StreamItem =
    | Started(turn: Turn)
    | Token(text: string)
    | StepStarted(step: AgentStep, at: int)
    | Recorded(stored: StoredEvent)
    | Completed(turn: Turn)
    | FailedTurn(turn: Turn)
    | EndOfStream

  /** The events of a log, without their numbers. */
  function Unnumbered(log: seq<StoredEvent>): (events: seq<Event>)
    ensures |events| == |log| && forall i :: 0 <= i < |log| ==> events[i] == log[i].event
  {
    seq(|log|, i requires 0 <= i < |log| => log[i].event)
  }

  predicate NoSteps(events: seq<Event>) {
    forall i :: 0 <= i < |events| ==> !events[i].StepEvent?
  }
}
