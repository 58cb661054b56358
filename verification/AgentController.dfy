/**
 The controller as it runs: an object that updates its fields, appends to a stream it shares with its
 delegates, and forwards events to its delegate. Every method is proved to do exactly what the
 corresponding function of ControllerModel says.
 */
module AgentController {
  import opened Sequences
  import opened Events
  import opened ControllerModel
  import Safety = ControllerSafety
  import Window = ConversationWindow

  class EventStream {
    var events: seq<Event>
    ghost var resumes: nat
    ghost var granted: int

    constructor (limit: int)
      ensures World() == ControllerModel.World([], 0, limit)
    {
      events, resumes, granted := [], 0, limit;
    }

    ghost function World(): World
      reads this
    {
      ControllerModel.World(events, resumes, granted)
    }

    method Add(source: Source, kind: Kind, cause: Option<int>, metadata: Option<Metadata>) returns (e: Event)
      modifies this
      ensures World() == Append(old(World()), source, kind, cause, metadata) && e == Last(World())
    {
      e := Event(|events|, source, kind, cause, metadata, false);
      events := events + [e];
    }

    ghost method CountGrant(limit: int)
      modifies this
      ensures World() == Grant(old(World()), limit)
    {
      granted := if limit > granted then limit else granted;
    }

    ghost method CountResume(limit: int)
      modifies this
      ensures World() == Grant(old(World()).(resumes := old(resumes) + 1), limit)
    {
      resumes := resumes + 1;
      CountGrant(limit);
    }
  }

  class Controller {
    const stream: EventStream
    const initialMax: int
    const initialBudget: Option<real>
    const headless: bool
    const hasCallback: bool
    const confirmationMode: bool
    const truncates: bool
    const startId: nat
    var agentState: AgentState
    var traffic: Traffic
    var iteration: int
    var maxIterations: int
    var maxBudget: Option<real>
    var history: seq<Event>
    var pending: Option<Event>
    var delegate: Controller?
    ghost var below: Option<Ctl>
    ghost var repr: set<object>

    ghost predicate Valid()
      reads this, repr
      decreases repr
    {
      && this in repr && stream !in repr
      && (delegate == null ==> below == None)
      && (delegate != null ==>
            && delegate in repr && delegate.repr <= repr && this !in delegate.repr
            && delegate.stream == stream && delegate.Valid() && below == Some(delegate.View()))
    }

    ghost function View(): Ctl
      reads this
    {
      Ctl(agentState, traffic, iteration, maxIterations, initialMax, maxBudget, initialBudget, headless,
          hasCallback, confirmationMode, truncates, history, startId, pending, below)
    }

    ghost function System(): Sys
      reads this, stream
    {
      Sys(View(), stream.World())
    }

    constructor (stream: EventStream, maxIterations: int, maxBudget: Option<real>, iteration: int,
                 headless: bool, hasCallback: bool, confirmationMode: bool, truncates: bool, startId: nat)
      ensures Valid() && fresh(repr) && this.stream == stream
      ensures View() == Ctl(Loading, Normal, iteration, maxIterations, maxIterations, maxBudget, maxBudget,
                            headless, hasCallback, confirmationMode, truncates, [], startId, None, None)
    {
      this.stream := stream;
      this.initialMax, this.maxIterations, this.initialBudget, this.maxBudget := maxIterations, maxIterations, maxBudget, maxBudget;
      this.headless, this.hasCallback, this.confirmationMode, this.truncates := headless, hasCallback, confirmationMode, truncates;
      this.startId, this.iteration := startId, iteration;
      agentState, traffic, history, pending, delegate := Loading, Normal, [], None, null;
      below, repr := None, {this};
    }

    // ----- set_agent_state_to

    /** _reset: the pending action gets an error observation unless the history already answers it. */
    method Reset()
      requires Valid()
      modifies this, stream
      ensures Valid() && repr == old(repr) && delegate == old(delegate) && below == old(below)
      ensures System() == ControllerModel.Reset(old(System()))
    {
      if pending.Some? {
        var found := false;
        var i := 0;
        while i < |history| && !found
          invariant i <= |history|
          invariant found <==> Answered(history[..i], pending.value.metadata)
        {
          found := IsObservation(history[i]) && history[i].metadata == pending.value.metadata;
          assert found ==> history[..i + 1][i] == history[i];
          i := i + 1;
        }
        AnsweredPrefix(history, i, pending.value.metadata);
        if !found {
          var obs := stream.Add(Agent, ErrorObservation, Some(pending.value.id), pending.value.metadata);
        }
      }
      pending := None;
    }

    method ResumeThrottled(cost: real)
      requires Valid()
      modifies this, stream
      ensures Valid() && repr == old(repr) && delegate == old(delegate) && below == old(below)
      ensures System() == ControllerModel.Resume(old(System()), cost)
    {
      traffic := Lifted;
      if !headless && iteration >= maxIterations { maxIterations := maxIterations + initialMax; }
      if maxBudget.Some? && initialBudget.Some? && cost >= maxBudget.value {
        maxBudget := Some(maxBudget.value + initialBudget.value);
      }
      stream.CountResume(maxIterations);
      ghost var s := ControllerModel.Resume(old(System()), cost);
      assert View() == s.c;
    }

    method EnterState(state: AgentState, cost: real)
      requires Valid()
      modifies this, stream
      ensures Valid() && repr == old(repr) && delegate == old(delegate) && below == old(below)
      ensures System() == Enter(old(System()), state, cost)
    {
      if state == Stopped || state == Error {
        Reset();
      } else if state == Running && agentState == Paused && traffic == Throttling {
        ResumeThrottled(cost);
      } else if pending.Some? && (state == UserConfirmed || state == UserRejected) {
        var kind := WithConfirmation(pending.value.kind, state == UserConfirmed);
        var e := stream.Add(Agent, kind, pending.value.cause, pending.value.metadata);
        pending := Some(e);
      }
    }

    method SetAgentStateTo(state: AgentState, cost: real)
      requires Valid()
      modifies this, stream
      ensures Valid() && repr == old(repr) && delegate == old(delegate) && below == old(below)
      ensures System() == SetState(old(System()), state, cost)
    {
      if state == agentState { return; }
      EnterState(state, cost);
      agentState := state;
      var changed := stream.Add(Environment, StateChanged(state), None, None);
    }

    method ReactToException(rateLimited: bool, cost: real)
      requires Valid()
      modifies this, stream
      ensures Valid() && repr == old(repr) && delegate == old(delegate) && below == old(below)
      ensures System() == React(old(System()), rateLimited, cost)
    {
      if hasCallback && rateLimited {
        SetAgentStateTo(RateLimited, cost);
      } else {
        SetAgentStateTo(Error, cost);
      }
    }

    // ----- _step

    method HandleTrafficControl(cost: real) returns (stop: bool)
      requires Valid()
      modifies this, stream
      ensures Valid() && repr == old(repr) && delegate == old(delegate) && below == old(below)
      ensures (stop, System()) == HandleTraffic(old(System()), cost)
    {
      if traffic == Lifted {
        traffic := Normal;
        stop := false;
      } else {
        traffic := Throttling;
        ReactToException(false, cost);
        stop := true;
      }
    }

    method CheckLimitsNow(cost: real) returns (stop: bool)
      requires Valid()
      modifies this, stream
      ensures Valid() && repr == old(repr) && delegate == old(delegate) && below == old(below)
      ensures (stop, System()) == CheckLimits(old(System()), cost)
    {
      stop := false;
      if iteration >= maxIterations { stop := HandleTrafficControl(cost); }
      if maxBudget.Some? && cost > maxBudget.value { stop := HandleTrafficControl(cost); }
    }

    method HandleLongContextError(cost: real)
      requires Valid()
      modifies this, stream
      ensures Valid() && repr == old(repr) && delegate == old(delegate) && below == old(below)
      ensures System() == HandleContextExceeded(old(System()), cost)
    {
      if !truncates { ReactToException(false, cost); return; }
      var kept := Window.ApplyConversationWindow(history, FirstUserIn(stream.events, startId));
      if kept.Err? { ReactToException(false, cost); return; }
      var range := Window.ForgottenRange(history, kept.value);
      var e := stream.Add(Agent, Condensation(range.0, range.1), None, None);
    }

    method IssueAction(kind: Kind, metadata: Option<Metadata>, source: Source, cost: real)
      requires Valid()
      modifies this, stream
      ensures Valid() && repr == old(repr) && delegate == old(delegate) && below == old(below)
      ensures System() == Issue(old(System()), kind, metadata, source, cost)
    {
      hide SetState;
      if kind.NullAction? { return; }
      if kind.RunCommand? && kind.confirmation == Awaiting { SetAgentStateTo(AwaitingUserConfirmation, cost); }
      var e := stream.Add(source, kind, None, metadata);
      if Runnable(kind) { pending := Some(e); }
    }

    method AskAgent(env: Env)
      requires Valid()
      modifies this, stream
      ensures Valid() && repr == old(repr) && delegate == old(delegate) && below == old(below)
      ensures System() == Ask(old(System()), env)
    {
      hide SetState, Issue, HandleContextExceeded, React;
      iteration := iteration + 1;
      match env.outcome
      case Acts(kind, metadata, source) =>
        IssueAction(if confirmationMode && kind.RunCommand? then kind.(confirmation := Awaiting) else kind, metadata, source, env.cost);
      case BadResponse =>
        var e := stream.Add(Agent, ErrorObservation, None, None);
      case ContextExceeded =>
        HandleLongContextError(env.cost);
      case Fails(rateLimited) =>
        ReactToException(rateLimited, env.cost);
    }

    method TakeStep(env: Env)
      requires Valid()
      modifies this, stream
      ensures Valid() && repr == old(repr) && delegate == old(delegate) && below == old(below)
      ensures System() == Step(old(System()), env)
    {
      if agentState != Running || pending.Some? { return; }
      var stop := CheckLimitsNow(env.cost);
      if stop { return; }
      if env.stuck { ReactToException(false, env.cost); return; }
      AskAgent(env);
    }

    // ----- handling events

    method ReceiveObservation(e: Event, cost: real)
      requires Valid()
      modifies this, stream
      ensures Valid() && repr == old(repr) && delegate == old(delegate) && below == old(below)
      ensures System() == HandleObservation(old(System()), e, cost)
    {
      if pending.Some? && e.cause == Some(pending.value.id) {
        if agentState == AwaitingUserConfirmation { return; }
        pending := None;
        if agentState == UserConfirmed {
          SetAgentStateTo(Running, cost);
        } else if agentState == UserRejected {
          SetAgentStateTo(AwaitingUserInput, cost);
        }
      }
    }

    method ExtendLimit()
      requires Valid()
      modifies this, stream
      ensures Valid() && repr == old(repr) && delegate == old(delegate) && below == old(below)
      ensures System() == Extend(old(System()))
    {
      if !headless {
        maxIterations := iteration + initialMax;
        stream.CountGrant(maxIterations);
        if traffic == Throttling || traffic == Lifted { traffic := Normal; }
      }
    }

    method ReceiveMessage(e: Event, cost: real)
      requires Valid() && e.kind.Message?
      modifies this, stream
      ensures Valid() && repr == old(repr) && delegate == old(delegate) && below == old(below)
      ensures System() == HandleMessage(old(System()), e, cost)
    {
      if e.source == User {
        ExtendLimit();
        var recall := stream.Add(User, Recall(e.kind.content), None, None);
        pending := Some(recall);
        if agentState != Running { SetAgentStateTo(Running, cost); }
      } else if e.source == Agent {
        if e.kind.waitForResponse { SetAgentStateTo(AwaitingUserInput, cost); }
      }
    }

    method NewDelegateController(truncates: bool) returns (d: Controller)
      requires Valid()
      ensures d.Valid() && fresh(d.repr) && d.stream == stream
      ensures d.View() == NewDelegate(View(), stream.World(), truncates)
    {
      d := new Controller(stream, maxIterations, maxBudget, iteration, headless, false, false, truncates, |stream.events|);
    }

    method StartDelegate(task: Option<string>, env: Env)
      requires Valid()
      modifies this, stream
      ensures Valid() && fresh(repr - old(repr))
      ensures System() == Delegate(old(System()), task, env)
    {
      hide SetState;
      var d := NewDelegateController(env.delegateTruncates);
      if env.delegateSystemMessage {
        var e := stream.Add(Agent, SystemMessage, None, None);
      }
      if task.Some? {
        var e := stream.Add(User, Message("TASK: " + task.value, false), None, None);
        d.SetAgentStateTo(Running, env.cost);
      }
      delegate, below, repr := d, Some(d.View()), repr + d.repr;
    }

    method ReceiveAction(e: Event, env: Env)
      requires Valid()
      modifies this, stream
      ensures Valid() && fresh(repr - old(repr))
      ensures System() == HandleAction(old(System()), e, env)
    {
      match e.kind
      case ChangeState(target) => SetAgentStateTo(target, env.cost);
      case Message(_, _) => ReceiveMessage(e, env.cost);
      case DelegateAction(task) => StartDelegate(task, env);
      case Finish => SetAgentStateTo(Finished, env.cost);
      case Reject => SetAgentStateTo(Rejected, env.cost);
      case _ =>
    }

    method WantsStep(e: Event) returns (r: bool)
      requires Valid()
      ensures r == ShouldStep(View(), e)
    {
      if delegate != null { return false; }
      if IsObservation(e) {
        if e.kind.NullObservation? { return e.cause.Some? && e.cause.value > 0; }
        return !e.kind.StateChanged?;
      }
      r := (e.kind.Message? && (e.source == User || agentState != AwaitingUserInput))
        || e.kind.DelegateAction? || e.kind.Condensation?;
    }

    /** _on_event. */
    method HandleEvent(e: Event, env: Env)
      requires Valid()
      modifies this, stream
      ensures Valid() && fresh(repr - old(repr))
      ensures System() == Handle(old(System()), e, env)
    {
      hide SetState, Step, HandleAction, HandleObservation;
      if e.hidden { return; }
      if !FilteredOut(e) { history := history + [e]; }
      if IsObservation(e) {
        ReceiveObservation(e, env.cost);
      } else {
        ReceiveAction(e, env);
      }
      var step := WantsStep(e);
      if step { TakeStep(env); }
    }

    /** The tool call that the latest delegate action answers. */
    method DelegateMetadata() returns (metadata: Option<Metadata>)
      ensures metadata == if LastDelegateAction(history).Some? then LastDelegateAction(history).value.metadata else None
    {
      var i := |history|;
      assert history[..i] == history;
      while i > 0
        invariant 0 <= i <= |history|
        invariant LastDelegateAction(history[..i]) == LastDelegateAction(history)
      {
        i := i - 1;
        assert history[..i + 1][..i] == history[..i];
        if history[i].kind.DelegateAction? { return history[i].metadata; }
      }
      metadata := None;
    }

    method EndDelegation(cost: real)
      requires Valid() && delegate != null
      modifies repr, stream
      ensures Valid() && repr == old(repr)
      ensures System() == EndDelegate(old(System()), cost)
    {
      var d := delegate;
      iteration := d.iteration;
      d.SetAgentStateTo(Stopped, cost);
      var metadata := DelegateMetadata();
      var obs := stream.Add(Agent, DelegateObservation, None, metadata);
      delegate, below := null, None;
    }

    /** on_event: forwards to a delegate that is not done, ends one that is. */
    method ReceiveEvent(e: Event, env: Env)
      requires Valid()
      modifies repr, stream
      ensures Valid() && fresh(repr - old(repr))
      ensures System() == OnEvent(old(System()), e, env)
    {
      if delegate == null {
        HandleEvent(e, env);
      } else if Done(delegate.agentState) {
        EndDelegation(env.cost);
      } else {
        delegate.HandleEvent(e, env);
        below, repr := Some(delegate.View()), repr + delegate.repr;
      }
    }
  }

  lemma {:induction false} AnsweredPrefix(history: seq<Event>, n: nat, metadata: Option<Metadata>)
    requires n <= |history| && (n == |history| || Answered(history[..n], metadata))
    ensures Answered(history, metadata) <==> Answered(history[..n], metadata)
  {
    assert forall i :: 0 <= i < n ==> history[..n][i] == history[i];
    if n == |history| { assert history[..n] == history; }
  }

  /** A session: every input is handled to completion before the next one. */
  method Serve(controller: Controller, inputs: seq<Input>)
    requires controller.Valid()
    modifies controller.repr, controller.stream
    ensures controller.Valid() && controller.System() == Safety.Run(old(controller.System()), inputs)
  {
    for i := 0 to |inputs|
      invariant controller.Valid() && fresh(controller.repr - old(controller.repr))
      invariant controller.System() == Safety.Run(old(controller.System()), inputs[..i])
    {
      assert inputs[..i + 1][..i] == inputs[..i];
      match inputs[i]
      case Deliver(e, env) => controller.ReceiveEvent(e, env);
      case Command(state, cost) => controller.SetAgentStateTo(state, cost);
    }
    assert inputs[..|inputs|] == inputs;
  }
}
