/** The phases of an agent run (crates/roos-orchestrator/src/state.rs). */
module AgentStates {
  import opened Common

  datatype AgentState =
    | Idle
    | Reasoning(step: nat)
    | CallingTool(toolName: string, step: nat)
    | Observing(step: nat)
    | Finished
    | Failed
  {
    function Step(): nat {
      match this
      case Reasoning(k) => k
      case CallingTool(_, k) => k
      case Observing(k) => k
      case _ => 0
    }

    function Start(): Transition {
      if Idle? then Ok(Reasoning(1)) else Err(Invalid("start", this))
    }

    function CallTool(toolName: string): Transition {
      if Reasoning? then Ok(CallingTool(toolName, this.step)) else Err(Invalid("call_tool", this))
    }

    function ToolDone(): Transition {
      if CallingTool? then Ok(Observing(this.step)) else Err(Invalid("tool_done", this))
    }

    function ContinueReasoning(): Transition {
      if Observing? then Ok(Reasoning(this.step + 1)) else Err(Invalid("continue_reasoning", this))
    }

    function Finish(): Transition {
      if Reasoning? then Ok(Finished) else Err(Invalid("finish", this))
    }

    function Fail(): AgentState {
      Failed
    }

    predicate IsTerminal() {
      Finished? || Failed?
    }
  }

  datatype TransitionError = Invalid(event: string, from: AgentState)

  type Transition = Result<AgentState, TransitionError>

  datatype Event = StartEvent | CallToolEvent(toolName: string) | ToolDoneEvent | ContinueEvent | FinishEvent | FailEvent

  function Fire(s: AgentState, e: Event): Transition {
    match e
    case StartEvent => s.Start()
    case CallToolEvent(toolName) => s.CallTool(toolName)
    case ToolDoneEvent => s.ToolDone()
    case ContinueEvent => s.ContinueReasoning()
    case FinishEvent => s.Finish()
    case FailEvent => Ok(s.Fail())
  }

  /** The state after a sequence of events from `Idle`, or the first invalid transition. */
  function FireAll(events: seq<Event>): Transition {
    if events == [] then Ok(Idle)
    else
      match FireAll(events[..|events| - 1])
      case Err(e) => Err(e)
      case Ok(s) => Fire(s, events[|events| - 1])
  }

  /** Where n transitions of the one cycle lead; the n-th of them may have been `finish`. */
  predicate AtCycle(s: AgentState, n: nat) {
    match s
    case Idle => n == 0
    case Reasoning(k) => k >= 1 && n == 3 * k - 2
    case CallingTool(_, k) => k >= 1 && n == 3 * k - 1
    case Observing(k) => k >= 1 && n == 3 * k
    case Finished => n >= 2 && (n + 1) % 3 == 0
    case Failed => true
  }

  /** Which transitions are valid, and where they lead; an invalid one names its event and where it was tried. */
  lemma TransitionsExactly(s: AgentState, e: Event)
    ensures e == StartEvent ==> Fire(s, e) == if s == Idle then Ok(Reasoning(1)) else Err(Invalid("start", s))
    ensures e.CallToolEvent? ==>
              Fire(s, e) == if s.Reasoning? then Ok(CallingTool(e.toolName, s.step)) else Err(Invalid("call_tool", s))
    ensures e == ToolDoneEvent ==> Fire(s, e) == if s.CallingTool? then Ok(Observing(s.step)) else Err(Invalid("tool_done", s))
    ensures e == ContinueEvent ==>
              Fire(s, e) == if s.Observing? then Ok(Reasoning(s.step + 1)) else Err(Invalid("continue_reasoning", s))
    ensures e == FinishEvent ==> Fire(s, e) == if s.Reasoning? then Ok(Finished) else Err(Invalid("finish", s))
    ensures e == FailEvent ==> Fire(s, e) == Ok(Failed)
    ensures s.Step() == (if s.Reasoning? || s.CallingTool? || s.Observing? then s.step else 0)
    ensures s.IsTerminal() <==> s == Finished || s == Failed
  {
  }

  lemma CycleStep(s: AgentState, e: Event, n: nat)
    requires AtCycle(s, n) && Fire(s, e).Ok?
    ensures AtCycle(Fire(s, e).value, n + 1)
    ensures Fire(s, e).value == Finished <==> e == FinishEvent
    ensures Fire(s, e).value == Failed <==> e == FailEvent
    ensures s.IsTerminal() ==> e == FailEvent
  {
  }

  /** Every valid history goes round the one cycle: the number of transitions
      alone determines the phase and the step. A history has ended exactly when
      it contains `finish` or `fail`; `finish` comes at the end of a reasoning
      phase, and nothing but `fail` follows an end. */
  lemma {:induction false} ValidHistories(events: seq<Event>)
    requires FireAll(events).Ok?
    ensures AtCycle(FireAll(events).value, |events|)
    ensures FireAll(events).value == Finished <==> events != [] && events[|events| - 1] == FinishEvent
    ensures FireAll(events).value == Failed <==> FailEvent in events
    ensures FireAll(events).value.IsTerminal() <==> FinishEvent in events || FailEvent in events
  {
    if events != [] {
      var init, last := events[..|events| - 1], events[|events| - 1];
      assert events == init + [last];
      ValidHistories(init);
      CycleStep(FireAll(init).value, last, |init|);
    }
  }
}
