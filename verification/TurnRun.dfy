// The objects that carry one turn: its tally of model calls and the run that drives its trail.

module TurnRun {
  import opened Basics
  import opened Events
  import opened TurnTrail
  import opened TurnRunner
  import opened TurnLifecycle

  /** `_Tally`. The ghost field is the calls added so far. */
  class Tally {
    var usage: Usage
    var models: map<string, StepModel>
    var prompts: seq<string>
    ghost var calls: seq<Call>

    ghost predicate Valid()
      reads this
    {
      usage == UsageOf(calls) && models == ModelsOf(calls) && prompts == PromptsOf(calls)
    }

    constructor ()
      ensures Valid() && calls == []
    {
      usage, models, prompts, calls := NoUsage(), map[], [], [];
    }

    method Add(call: Call)
      requires Valid()
      modifies this
      ensures Valid() && calls == old(calls) + [call]
    {
      usage := Usage(usage.input + call.input, usage.cached + call.cached, usage.output + call.output,
                     usage.cost + call.cost, usage.charged + ChargedOf(call));
      models := models[call.step := ModelOf(call)];
      if call.prompt.Some? && call.prompt.value != "" && call.prompt.value !in prompts {
        prompts := prompts + [call.prompt.value];
      }
      calls := calls + [call];
      assert calls[..|calls| - 1] == old(calls);
    }
  }

  /** `_TurnRun` with the runner's steps over it. */
  class Run {
    const turn: Turn
    const store: TurnStore
    const queue: EventQueue
    const trail: Trail
    const tally: Tally

    ghost predicate Valid()
      reads tally
    {
      trail.store == store && trail.queue == queue && tally.Valid()
    }

    ghost function View(): RunState
      reads store, queue, trail, trail.store, trail.queue, tally
    {
      RunState(trail.View(), tally.calls)
    }

    /** `start`: the turn is stored and its stream opens with it. */
    constructor (turn: Turn)
      ensures Valid() && View() == Begin(turn) && this.turn == turn && store.row == turn
      ensures fresh(store) && fresh(queue) && fresh(trail) && fresh(tally)
    {
      var s := new TurnStore(turn);
      var q := new EventQueue();
      var t := new Trail(s, q);
      var y := new Tally();
      this.turn, store, queue, trail, tally := turn, s, q, t, y;
      new;
      queue.Put(Started(turn));
    }

    method Perform(nodes: seq<Node>) returns (failure: Option<Failure>)
      requires Valid()
      modifies store, queue, trail, tally
      ensures Valid() && store.row == old(store.row)
      ensures Ran(View(), failure) == Exec(old(View()), nodes)
      decreases nodes, 0
    {
      failure := None;
      if nodes != [] {
        failure := PerformNode(nodes[0]);
        if failure.None? {
          failure := Perform(nodes[1..]);
        }
      }
    }

    method PerformNode(node: Node) returns (failure: Option<Failure>)
      requires Valid()
      modifies store, queue, trail, tally
      ensures Valid() && store.row == old(store.row)
      ensures Ran(View(), failure) == ExecNode(old(View()), node)
      decreases node, 1
    {
      failure := None;
      match node
      case Emit(e, w) =>
        failure := trail.Emit(e, w);
      case Say(text) =>
        queue.Put(Token(text));
      case CallModel(call, w) =>
        failure := trail.Emit(ModelCallEvent(call), w);
        if failure.None? {
          tally.Add(call);
        }
      case SetStatus(status) =>
        trail.SetStatus(status);
      case SetLatency(ms) =>
        trail.SetLatency(ms);
      case RunStep(step, at, body, measured, w) =>
        failure := trail.Enter(step, at);
        if failure.None? {
          failure := Perform(body);
          var interrupted := trail.Exit(failure.Some?, measured, w);
          if interrupted.Some? {
            failure := interrupted;
          }
        }
      case Report(step, status, at, latencyMs, events, w) =>
        failure := trail.Report(step, status, at, latencyMs, events, w);
      case Elsewhere(events) =>
        store.AppendElsewhere(events);
      case Raise(raised) =>
        failure := Some(raised);
    }

    /** `_finish`. */
    method Finish(answer: Option<string>, error: Option<Event>, c: Closing) returns (final: Turn)
      requires Valid() && store.row == turn
      requires error.Some? ==> error.value.ErrorEvent?
      modifies store, queue, trail
      ensures Valid()
      ensures Ended(View(), store.row, final) == TurnLifecycle.Finish(old(View()), turn, answer, error, c)
    {
      final := turn;
      if error.Some? {
        var _ := trail.Emit(error.value, c.errorWrite);
      }
      if !c.traceFails {
        var outcome := turn.(
          status := if error.Some? then TurnFailed else TurnCompleted,
          output := if error.Some? then None else answer,
          errorCode := if error.Some? then Some(error.value.code) else None,
          usage := tally.usage, models := tally.models, prompts := tally.prompts);
        if c.rowStored {
          store.row := outcome;
          final := outcome;
        } else {
          final := turn.(status := TurnFailed, errorCode := Some("internal_error"));
        }
        if c.quota.QuotaIs? {
          var _ := trail.Emit(QuotaEvent(c.quota.body), c.quota.write);
        }
        queue.Put(if final.status == TurnCompleted then Completed(final) else FailedTurn(final));
      }
      queue.Put(EndOfStream);
    }

    /** `_run`, from the start of a turn to its end. */
    method RunToEnd(nodes: seq<Node>, answer: Option<string>, c: Closing) returns (final: Turn)
      requires Valid() && View() == Begin(turn) && store.row == turn
      modifies store, queue, trail, tally
      ensures Valid() && Ended(View(), store.row, final) == RunTurn(turn, nodes, answer, c)
    {
      var failure := Perform(nodes);
      var error := None;
      if failure.Some? {
        error := Some(ErrorOf(failure.value));
      } else if answer.None? {
        error := Some(ErrorOf(Crashed));
      }
      final := Finish(answer, error, c);
    }

    /** `_run_blocked`: an error is caught and told, a cancellation leaves without finishing. */
    method RunBlocked(at: int, notice: string, reply: string, measured: int, w: Write, c: Closing)
      returns (final: Option<Turn>)
      requires Valid() && View() == Begin(turn) && store.row == turn
      modifies store, queue, trail, tally
      ensures Valid()
      ensures match TurnLifecycle.RunBlocked(turn, at, notice, reply, measured, w, c)
        case Abandoned(s) => final == None && View() == s && store.row == turn
        case BlockedEnded(e) => final.Some? && e == Ended(View(), store.row, final.value)
    {
      var failure := Perform(BlockedWork(at, notice, reply, measured, w));
      if failure == Some(Cancelled) {
        return None;
      }
      var ended := Finish(Some(reply), if failure.Some? then Some(ErrorOf(Crashed)) else None, c);
      final := Some(ended);
    }
  }
}
