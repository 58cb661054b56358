/** What handling one event does to the controller, its history and its delegate, and what a whole run leaves
    in the history. */
module ControllerEvents {
  import opened Sequences
  import opened Events
  import opened ControllerModel
  import opened ControllerSteps
  import opened ControllerSafety
  import Window = ConversationWindow

  // ----- the history

  /** A visible event is remembered unless it does nothing, is a null observation, or is about the agent's state. */
  predicate Remembered(e: Event) {
    !e.hidden && e.kind != NullAction && e.kind != NullObservation && !e.kind.ChangeState? && !e.kind.StateChanged?
  }

  lemma {:induction false} SetStateKeepsHistory(s: Sys, state: AgentState, cost: real)
    ensures SetState(s, state, cost).c.history == s.c.history
  {
  }

  lemma {:induction false} StepKeepsHistory(s: Sys, env: Env)
    ensures Step(s, env).c.history == s.c.history
  {
    if s.c.agentState == Running && s.c.pending.None? {
      hide Step, Ask, SetState, Window.Window;
      LimitsDecide(s, env);
      var t := Sys(if OverIterations(s.c) || OverBudget(s.c, env.cost) then s.c.(traffic := Normal) else s.c, s.w);
      if env.outcome.Acts? { AskPublishes(t, env); }
      else if env.outcome.ContextExceeded? { AskCondenses(t, env); }
      else { AskFails(t, env); }
    }
  }

  lemma {:induction false} DispatchKeepsHistory(s: Sys, e: Event, env: Env)
    ensures Dispatch(s, e, env).c.history == s.c.history
  {
    hide SetState;
    if IsObservation(e) {
      var t := s.(c := s.c.(pending := None));
      SetStateKeepsHistory(t, Running, env.cost);
      SetStateKeepsHistory(t, AwaitingUserInput, env.cost);
    } else {
      match e.kind
      case ChangeState(target) => SetStateKeepsHistory(s, target, env.cost);
      case Message(content, _) =>
        SetStateKeepsHistory(AwaitRecall(Extend(s), content), Running, env.cost);
        SetStateKeepsHistory(s, AwaitingUserInput, env.cost);
      case DelegateAction(task) =>
      case Finish => SetStateKeepsHistory(s, Finished, env.cost);
      case Reject => SetStateKeepsHistory(s, Rejected, env.cost);
      case _ =>
    }
  }

  /** Handling an event puts it at the end of the history, or leaves the history alone. */
  lemma {:induction false} HandleRemembers(s: Sys, e: Event, env: Env)
    ensures Handle(s, e, env).c.history == if Remembered(e) then s.c.history + [e] else s.c.history
  {
    hide Dispatch, Step;
    var t := Dispatch(Record(s, e), e, env);
    DispatchKeepsHistory(Record(s, e), e, env);
    StepKeepsHistory(t, env);
  }

  /** The events that are delivered and remembered. */
  function Delivered(inputs: seq<Input>): seq<Event> {
    if inputs == [] then []
    else
      var last := inputs[|inputs| - 1];
      Delivered(inputs[..|inputs| - 1]) + if last.Deliver? && Remembered(last.e) then [last.e] else []
  }

  /** After every run without delegation the history is exactly what was delivered, in order. */
  lemma {:induction false} HistoryIsDelivered(s: Sys, inputs: seq<Input>)
    requires s.c.delegate.None? && NoDelegation(inputs)
    ensures var t := Run(s, inputs); t.c.delegate.None? && t.c.history == s.c.history + Delivered(inputs)
  {
    if inputs != [] {
      hide Handle, SetState;
      var t, input := Run(s, inputs[..|inputs| - 1]), inputs[|inputs| - 1];
      HistoryIsDelivered(s, inputs[..|inputs| - 1]);
      match input
      case Command(state, cost) =>
        SetStateKeepsHistory(t, state, cost);
        SetStateEvolves(t, state, cost);
      case Deliver(e, env) =>
        HandleRemembers(t, e, env);
        HandleEvolves(t, e, env);
    }
  }

  // ----- messages

  /** A user message: the controller waits for the recall of its content, and runs. Outside headless mode
      it may do as many iterations as at first again, and traffic control is over. */
  lemma {:induction false} UserMessageStarts(s: Sys, e: Event, cost: real)
    requires e.kind.Message? && e.source == User
    ensures var n, t := |s.w.stream|, HandleMessage(s, e, cost);
      var recall := Event(n, User, Recall(e.kind.content), None, None, false);
      && t.c.agentState == Running && t.c.pending == Some(recall)
      && t.c.iteration == s.c.iteration && t.c.history == s.c.history && t.c.delegate == s.c.delegate
      && t.w.stream == s.w.stream + (if s.c.agentState == Running then [recall] else [recall, Announcement(n + 1, Running)])
      && (!s.c.headless ==> t.c.maxIterations == s.c.iteration + s.c.initialMax && t.c.traffic == Normal && t.c.maxBudget == s.c.maxBudget)
      && (s.c.headless ==> t.c.maxIterations == s.c.maxIterations)
      && (s.c.headless && s.c.agentState == Paused && s.c.traffic == Throttling ==> t.c.traffic == Lifted)
      && (s.c.headless && (s.c.agentState != Paused || s.c.traffic != Throttling) ==>
            t.c.traffic == s.c.traffic && t.c.maxBudget == s.c.maxBudget)
  {
    hide SetState;
    var t := AwaitRecall(Extend(s), e.kind.content);
    if t.c.agentState == Paused && t.c.traffic == Throttling {
      ResumeThrottled(t, cost);
    } else {
      SetPlainState(t, Running, cost);
    }
    SetStateEvolves(t, Running, cost);
  }

  /** A message of the agent sets it waiting for the user when it asks for a response; no other message does anything. */
  lemma {:induction false} AgentMessageWaits(s: Sys, e: Event, cost: real)
    requires e.kind.Message? && e.source != User
    ensures var t := HandleMessage(s, e, cost);
      if e.source == Agent && e.kind.waitForResponse && s.c.agentState != AwaitingUserInput then
        t == Sys(s.c.(agentState := AwaitingUserInput), With(s.w, [Announcement(|s.w.stream|, AwaitingUserInput)]))
      else t == s
  {
    SetPlainState(s, AwaitingUserInput, cost);
  }

  /** The observation that answers the pending action clears it. Only while the user has yet to decide about it
      it is ignored; once the user has decided, it also ends the decision. */
  lemma {:induction false} AnswerClears(s: Sys, e: Event, cost: real)
    requires s.c.pending.Some? && e.cause == Some(s.c.pending.value.id)
    ensures var after := if s.c.agentState == UserConfirmed then Running else AwaitingUserInput;
      HandleObservation(s, e, cost) ==
        if s.c.agentState == AwaitingUserConfirmation then s
        else if s.c.agentState == UserConfirmed || s.c.agentState == UserRejected then
          Sys(s.c.(pending := None, agentState := after), With(s.w, [Announcement(|s.w.stream|, after)]))
        else s.(c := s.c.(pending := None))
  {
    hide SetState;
    var t := s.(c := s.c.(pending := None));
    if s.c.agentState == UserConfirmed { SetPlainState(t, Running, cost); }
    SetPlainState(t, AwaitingUserInput, cost);
  }

  // ----- delegation

  /** Handling a delegation: the delegate starts where its parent is, with the parent's limits as its initial
      ones, and the parent takes no step. A task is the delegate's first user message, whatever is posted
      later, and the delegate runs. */
  lemma {:induction false} DelegationStarts(s: Sys, e: Event, env: Env)
    requires e.kind.DelegateAction? && !e.hidden
    ensures var n, t := |s.w.stream|, Handle(s, e, env);
      && t.c == s.c.(history := s.c.history + [e], delegate := t.c.delegate) && t.c.delegate.Some?
      && var d, c := t.c.delegate.value, s.c;
      && d == Ctl(if e.kind.task.Some? then Running else Loading, Normal, c.iteration, c.maxIterations, c.maxIterations,
                  c.maxBudget, c.maxBudget, c.headless, false, false, env.delegateTruncates, [], n, None, None)
      && var system := if env.delegateSystemMessage then [Event(n, Agent, SystemMessage, None, None, false)] else [];
      && var m := n + |system|;
      && (e.kind.task.None? ==> t.w.stream == s.w.stream + system)
      && (e.kind.task.Some? ==>
            && t.w.stream == s.w.stream + system
                 + [Event(m, User, Message("TASK: " + e.kind.task.value, false), None, None, false), Announcement(m + 1, Running)]
            && (forall later :: t.w.stream <= later ==> FirstUserIn(later, d.startId) == Some(t.w.stream[m])))
  {
    var r := Record(s, e);
    var d := NewDelegate(r.c, r.w, env.delegateTruncates);
    if e.kind.task.Some? {
      var w0 := if env.delegateSystemMessage then Append(r.w, Agent, SystemMessage, None, None) else r.w;
      var w1 := Append(w0, User, Message("TASK: " + e.kind.task.value, false), None, None);
      SetPlainState(Sys(d, w1), Running, env.cost);
      var t := Handle(s, e, env);
      forall later | t.w.stream <= later ensures FirstUserIn(later, d.startId) == Some(t.w.stream[|w0.stream|]) {
        FirstUserIsFirst(later, d.startId, |w0.stream|);
      }
    }
  }

  /** The latest delegation in the history. */
  predicate LatestDelegation(history: seq<Event>, i: nat) {
    i < |history| && history[i].kind.DelegateAction? && forall j :: i < j < |history| ==> !history[j].kind.DelegateAction?
  }

  lemma {:induction false} LastDelegateIs(history: seq<Event>, i: nat)
    ensures LatestDelegation(history, i) ==> LastDelegateAction(history) == Some(history[i])
    ensures (forall j :: 0 <= j < |history| ==> !history[j].kind.DelegateAction?) ==> LastDelegateAction(history) == None
  {
    if history != [] && !history[|history| - 1].kind.DelegateAction? {
      LastDelegateIs(history[..|history| - 1], i);
    }
  }

  /** The next event after a delegate finished, rejected or failed ends it, and is not handled by anybody. The
      parent goes on from the delegate's iteration count; the stream gets the delegate's result as the answer
      to the tool call of the latest delegation. */
  lemma {:induction false} DelegationEnds(s: Sys, e: Event, env: Env, i: nat)
    requires s.c.delegate.Some? && s.c.delegate.value.agentState in {Finished, Error, Rejected}
    requires LatestDelegation(s.c.history, i)
    ensures var d, t := s.c.delegate.value, OnEvent(s, e, env);
      && t.c == s.c.(iteration := d.iteration, delegate := None)
      && s.w.stream < t.w.stream
      && var n := |t.w.stream| - 1;
      && t.w.stream[n] == Event(n, Agent, DelegateObservation, None, s.c.history[i].metadata, false)
      && n > |s.w.stream| && t.w.stream[n - 1] == Announcement(n - 1, Stopped)
  {
    LastDelegateIs(s.c.history, i);
    var d := Sys(s.c.delegate.value, s.w);
    SetHaltingState(d, Stopped, env.cost);
  }

  /** While a delegate works, its controller handles the event, and the parent's own state stays as it is. */
  lemma {:induction false} DelegateWorks(s: Sys, e: Event, env: Env)
    requires s.c.delegate.Some? && s.c.delegate.value.agentState !in {Finished, Error, Rejected}
    ensures var d, t := s.c.delegate.value, OnEvent(s, e, env);
      && t.c == s.c.(delegate := t.c.delegate) && t.c.delegate.Some?
      && t.c.delegate.value.history == d.history + (if Remembered(e) then [e] else [])
      && t == Sys(s.c.(delegate := Some(Handle(Sys(d, s.w), e, env).c)), Handle(Sys(d, s.w), e, env).w)
  {
    hide Handle;
    HandleRemembers(Sys(s.c.delegate.value, s.w), e, env);
  }

  /** The actions that end a task, and those that ask for a state, set exactly that state. */
  lemma {:induction false} ActionsSetState(s: Sys, e: Event, env: Env)
    ensures e.kind.Finish? ==> Dispatch(s, e, env).c.agentState == Finished
    ensures e.kind.Reject? ==> Dispatch(s, e, env).c.agentState == Rejected
    ensures e.kind.ChangeState? ==> Dispatch(s, e, env).c.agentState == e.kind.target
    ensures IsObservation(e) && !(s.c.pending.Some? && e.cause == Some(s.c.pending.value.id)) ==> Dispatch(s, e, env) == s
  {
    SetStateKeeps(s, Finished, env.cost);
    SetStateKeeps(s, Rejected, env.cost);
    if e.kind.ChangeState? { SetStateKeeps(s, e.kind.target, env.cost); }
  }
}
