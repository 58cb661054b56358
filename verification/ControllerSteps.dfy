/** What a change of state and a step do, written out: the limits, the confirmations, the emitted events. */
module ControllerSteps {
  import opened Sequences
  import opened Events
  import opened ControllerModel
  import Window = ConversationWindow

  /** The announcement of a state, as the event with the given id. */
  function Announcement(id: nat, state: AgentState): Event {
    Event(id, Environment, StateChanged(state), None, None, false)
  }

  function With(w: World, events: seq<Event>): World {
    w.(stream := w.stream + events)
  }

  // ----- set_agent_state_to

  /** Whatever the present state, setting it again does nothing. Other states are announced, and that is
      all unless they halt, resume a throttled task or decide about a pending action. */
  lemma {:induction false} SetPlainState(s: Sys, state: AgentState, cost: real)
    requires state != Stopped && state != Error
    requires state == Running ==> s.c.agentState != Paused || s.c.traffic != Throttling
    requires state == UserConfirmed || state == UserRejected ==> s.c.pending.None?
    ensures SetState(s, s.c.agentState, cost) == s
    ensures state != s.c.agentState ==>
      SetState(s, state, cost) == Sys(s.c.(agentState := state), With(s.w, [Announcement(|s.w.stream|, state)]))
  {
  }

  /** Stopping or failing leaves nothing pending. The pending action gets an error observation with its id and
      tool call, unless an observation in the history has that tool call already. */
  lemma {:induction false} SetHaltingState(s: Sys, state: AgentState, cost: real)
    requires (state == Stopped || state == Error) && state != s.c.agentState
    ensures var n, p := |s.w.stream|, s.c.pending;
      var open := p.Some? && forall e :: e in s.c.history && IsObservation(e) ==> e.metadata != p.value.metadata;
      SetState(s, state, cost) == Sys(s.c.(agentState := state, pending := None), With(s.w,
        if open then [Event(n, Agent, ErrorObservation, Some(p.value.id), p.value.metadata, false), Announcement(n + 1, state)]
        else [Announcement(n, state)]))
  {
    if s.c.pending.Some? {
      var metadata := s.c.pending.value.metadata;
      if Answered(s.c.history, metadata) {
        var i :| 0 <= i < |s.c.history| && IsObservation(s.c.history[i]) && s.c.history[i].metadata == metadata;
        assert s.c.history[i] in s.c.history;
      }
    }
  }

  /** The user lets a throttled task go on: limits that are used up grow by their initial amounts, the
      iteration limit only outside headless mode. */
  lemma {:induction false} ResumeThrottled(s: Sys, cost: real)
    requires s.c.agentState == Paused && s.c.traffic == Throttling
    ensures var t := SetState(s, Running, cost).c;
      && t.agentState == Running && t.traffic == Lifted && t.iteration == s.c.iteration
      && t.pending == s.c.pending && t.history == s.c.history
      && t.maxIterations == s.c.maxIterations + (if s.c.headless || s.c.iteration < s.c.maxIterations then 0 else s.c.initialMax)
      && (s.c.maxBudget.None? || s.c.initialBudget.None? || cost < s.c.maxBudget.value ==> t.maxBudget == s.c.maxBudget)
      && (s.c.maxBudget.Some? && s.c.initialBudget.Some? && cost >= s.c.maxBudget.value ==>
            t.maxBudget == Some(s.c.maxBudget.value + s.c.initialBudget.value))
    ensures SetState(s, Running, cost).w.stream == s.w.stream + [Announcement(|s.w.stream|, Running)]
    ensures SetState(s, Running, cost).w.resumes == s.w.resumes + 1
  {
  }

  /** Deciding about a pending command publishes it once more, under a new id, marked with the decision,
      with its cause and tool call. The new event is what is pending then. */
  lemma {:induction false} DecisionReissues(s: Sys, state: AgentState, cost: real)
    requires (state == UserConfirmed || state == UserRejected) && state != s.c.agentState
    requires s.c.pending.Some? && s.c.pending.value.kind.RunCommand?
    ensures var n, p := |s.w.stream|, s.c.pending.value;
      var again := Event(n, Agent, RunCommand(if state == UserConfirmed then Confirmed else Refused), p.cause, p.metadata, false);
      SetState(s, state, cost) == Sys(s.c.(agentState := state, pending := Some(again)), With(s.w, [again, Announcement(n + 1, state)]))
  {
  }

  /** A pending action of another kind is published again as it is. */
  lemma {:induction false} DecisionRepeats(s: Sys, state: AgentState, cost: real)
    requires (state == UserConfirmed || state == UserRejected) && state != s.c.agentState
    requires s.c.pending.Some? && !s.c.pending.value.kind.RunCommand?
    ensures var n, p := |s.w.stream|, s.c.pending.value;
      var again := Event(n, Agent, p.kind, p.cause, p.metadata, false);
      SetState(s, state, cost) == Sys(s.c.(agentState := state, pending := Some(again)), With(s.w, [again, Announcement(n + 1, state)]))
  {
  }

  /** A whole decision about a command. The runtime's observation of the command marked with the decision
      sets the controller running, or back to waiting for the user; one of the unmarked command does nothing. */
  lemma {:induction false} DecisionRound(s: Sys, confirmed: bool, e: Event, cost: real)
    requires s.c.agentState == AwaitingUserConfirmation && IsObservation(e) && e.cause.Some?
    requires s.c.pending.Some? && s.c.pending.value.kind.RunCommand? && s.c.pending.value.id < |s.w.stream|
    ensures var n := |s.w.stream|;
      var t := SetState(s, if confirmed then UserConfirmed else UserRejected, cost);
      var after := if confirmed then Running else AwaitingUserInput;
      && (e.cause.value == s.c.pending.value.id ==> HandleObservation(s, e, cost) == s && HandleObservation(t, e, cost) == t)
      && (e.cause.value == n ==>
            HandleObservation(t, e, cost) == Sys(s.c.(agentState := after, pending := None), With(t.w, [Announcement(n + 2, after)])))
  {
    DecisionReissues(s, if confirmed then UserConfirmed else UserRejected, cost);
  }

  // ----- _step

  predicate OverIterations(c: Ctl) {
    c.iteration >= c.maxIterations
  }

  predicate OverBudget(c: Ctl, cost: real) {
    c.maxBudget.Some? && cost > c.maxBudget.value
  }

  /** A limit is exceeded, and the user has not lifted the limits, or both are exceeded. */
  predicate LimitsStop(c: Ctl, cost: real) {
    (OverIterations(c) || OverBudget(c, cost)) && (c.traffic == Lifted ==> OverIterations(c) && OverBudget(c, cost))
  }

  /** What the two limits decide in a step that is due. A limit that is exceeded stops it, announcing an error
      and throttling, whatever the agent would have answered, unless the user has lifted the limits and
      only one is exceeded: that spends the lifting, and the step goes on as if there were no limit. */
  lemma {:induction false} LimitsDecide(s: Sys, env: Env)
    requires s.c.agentState == Running && s.c.pending.None?
    ensures var stop := LimitsStop(s.c, env.cost);
      var passed := if OverIterations(s.c) || OverBudget(s.c, env.cost) then s.c.(traffic := Normal) else s.c;
      var failed := With(s.w, [Announcement(|s.w.stream|, Error)]);
      && (stop ==> Step(s, env) == Sys(s.c.(agentState := Error, traffic := Throttling), failed))
      && (!stop && env.stuck ==> Step(s, env) == Sys(passed.(agentState := Error), failed))
      && (!stop && !env.stuck ==> Step(s, env) == Ask(Sys(passed, s.w), env))
  {
    LimitsGiven(s, env.cost);
    var (stop, t) := CheckLimits(s, env.cost);
    if !stop && env.stuck { FailsPlainly(t, env.cost); }
  }

  lemma {:induction false} LimitsGiven(s: Sys, cost: real)
    requires s.c.agentState == Running && s.c.pending.None?
    ensures CheckLimits(s, cost) == (LimitsStop(s.c, cost),
        if LimitsStop(s.c, cost) then Sys(s.c.(agentState := Error, traffic := Throttling), With(s.w, [Announcement(|s.w.stream|, Error)]))
        else if OverIterations(s.c) || OverBudget(s.c, cost) then s.(c := s.c.(traffic := Normal)) else s)
  {
    hide SetState;
    var throttled := s.(c := s.c.(traffic := Throttling));
    FailsPlainly(throttled, cost);
    var failed := SetState(throttled, Error, cost);
    SetPlainState(failed, Loading, cost);
    assert failed.c.(traffic := Throttling) == failed.c;
    assert s.c.(traffic := Normal).(traffic := Throttling) == throttled.c;
  }

  lemma {:induction false} FailsPlainly(s: Sys, cost: real)
    requires s.c.agentState == Running && s.c.pending.None?
    ensures SetState(s, Error, cost) == Sys(s.c.(agentState := Error), With(s.w, [Announcement(|s.w.stream|, Error)]))
  {
    SetHaltingState(s, Error, cost);
  }

  /** The controller, running and with nothing pending, after the iteration is counted. */
  function Counted(c: Ctl): Ctl {
    c.(iteration := c.iteration + 1)
  }

  /** What the agent chose is published. A command that needs confirmation is published as awaiting it,
      after the state that says so; what the runtime will execute is pending then. */
  lemma {:induction false} AskPublishes(s: Sys, env: Env)
    requires s.c.agentState == Running && s.c.pending.None? && env.outcome.Acts?
    ensures var n, a := |s.w.stream|, env.outcome;
      var waits := a.kind.RunCommand? && (s.c.confirmationMode || a.kind.confirmation == Awaiting);
      var awaiting := Event(n + 1, a.source, RunCommand(Awaiting), None, a.metadata, false);
      var plain := Event(n, a.source, a.kind, None, a.metadata, false);
      var runs := a.kind.RunCommand? || a.kind == OtherAction(true);
      Ask(s, env) ==
        if a.kind.NullAction? then Sys(Counted(s.c), s.w)
        else if waits then
          Sys(Counted(s.c).(agentState := AwaitingUserConfirmation, pending := Some(awaiting)),
              With(s.w, [Announcement(n, AwaitingUserConfirmation), awaiting]))
        else Sys(if runs then Counted(s.c).(pending := Some(plain)) else Counted(s.c), With(s.w, [plain]))
  {
    hide SetState;
    var t := s.(c := Counted(s.c));
    SetPlainState(t, AwaitingUserConfirmation, env.cost);
    var kind := env.outcome.kind;
    assert kind.RunCommand? && (s.c.confirmationMode || kind.confirmation == Awaiting) ==> AsIssued(t.c, kind) == RunCommand(Awaiting);
  }

  /** An answer that cannot be read is reported to the agent, which stays running. Any other failure ends in
      an error, or in the rate limit when there is somebody to tell. */
  lemma {:induction false} AskFails(s: Sys, env: Env)
    requires s.c.agentState == Running && s.c.pending.None?
    ensures var n := |s.w.stream|;
      && (env.outcome.BadResponse? ==>
            Ask(s, env) == Sys(Counted(s.c), With(s.w, [Event(n, Agent, ErrorObservation, None, None, false)])))
      && (env.outcome.Fails? ==>
            var state := if env.outcome.rateLimited && s.c.hasCallback then RateLimited else Error;
            Ask(s, env) == Sys(Counted(s.c).(agentState := state), With(s.w, [Announcement(n, state)])))
  {
    hide SetState;
    var t := s.(c := Counted(s.c));
    SetPlainState(t, RateLimited, env.cost);
    FailsPlainly(t, env.cost);
  }

  // ----- an exceeded context window

  /** When the context window is exceeded, a controller that may truncate puts the forgotten range on the
      stream and stays running; when it may not, or no window can be formed, it fails. */
  lemma {:induction false} AskCondenses(s: Sys, env: Env)
    requires s.c.agentState == Running && s.c.pending.None? && env.outcome.ContextExceeded?
    ensures var n, window := |s.w.stream|, Window.Window(s.c.history, FirstUserIn(s.w.stream, s.c.startId));
      Ask(s, env) ==
        if s.c.truncates && window.Ok? then
          var range := Window.ForgottenRange(s.c.history, window.value);
          Sys(Counted(s.c), With(s.w, [Event(n, Agent, Condensation(range.0, range.1), None, None, false)]))
        else Sys(Counted(s.c).(agentState := Error), With(s.w, [Announcement(n, Error)]))
  {
    hide SetState;
    FailsPlainly(s.(c := Counted(s.c)), env.cost);
  }

  /** The controller's first user message: the first one on the stream from its own start on. */
  lemma {:induction false} FirstUserIsFirst(stream: seq<Event>, from: nat, i: nat)
    ensures FirstUserIn(stream, from).None? <==> forall k :: from <= k < |stream| ==> !IsUserMessage(stream[k])
    ensures from <= i < |stream| && IsUserMessage(stream[i]) && (forall k :: from <= k < i ==> !IsUserMessage(stream[k]))
      ==> FirstUserIn(stream, from) == Some(stream[i])
  {
    if from <= |stream| {
      var f := Window.Find(Window.IsFromUser(), stream, from);
      if f < |stream| { assert IsUserMessage(stream[f]); }
    }
  }

  predicate CondensesOn(s: Sys, t: Sys, a: int, b: int) {
    t == Sys(Counted(s.c), With(s.w, [Event(|s.w.stream|, Agent, Condensation(a, b), None, None, false)]))
  }

  /** The condensation on the stream hides what the window forgets. Its bounds are ids of forgotten events;
      every forgotten event lies between them; no kept event does exactly when no essential event stands
      between two others before the recent ones; and a view of the history without what lies between them
      is exactly the window if and only if the essential events are also undisturbed. */
  lemma {:induction false} CondensationMatchesWindow(s: Sys, env: Env, firstUser: Event) returns (a: int, b: int)
    requires s.c.agentState == Running && s.c.pending.None? && env.outcome.ContextExceeded? && s.c.truncates
    requires s.c.history != [] && Increasing(s.c.history) && Window.UserKnown(s.c.history, firstUser)
    requires FirstUserIn(s.w.stream, s.c.startId) == Some(firstUser) && Window.Window(s.c.history, Some(firstUser)).Ok?
    requires Window.SomethingForgotten(s.c.history, Window.KeptFrom(s.c.history, |Window.Essentials(s.c.history, firstUser)|))
    ensures CondensesOn(s, Ask(s, env), a, b)
    ensures var history, kept := s.c.history, Ids(Window.Window(s.c.history, Some(firstUser)).value);
      && a in Ids(history) && a !in kept && b in Ids(history) && b !in kept
      && (forall i :: 0 <= i < |history| && history[i].id !in kept ==> a <= history[i].id <= b)
    ensures var history, kept := s.c.history, Ids(Window.Window(s.c.history, Some(firstUser)).value);
      var recent := Window.KeptFrom(history, |Window.Essentials(history, firstUser)|);
      (forall i :: 0 <= i < |history| && a <= history[i].id <= b ==> history[i].id !in kept)
        <==> !Window.EssentialBetween(history, recent)
    ensures var history, kept := s.c.history, Window.Window(s.c.history, Some(firstUser)).value;
      Filter((e: Event) => !(a <= e.id <= b), history) == kept <==> Window.Undisturbed(history, firstUser)
  {
    hide Window.Window, Window.Essentials, Window.KeptFrom, Window.Undisturbed, Window.EssentialBetween, Window.UserKnown;
    hide Window.SomethingForgotten, Filter, Increasing, Ask;
    var history := s.c.history;
    var kept := Window.Window(history, Some(firstUser)).value;
    var recent := Window.KeptFrom(history, |Window.Essentials(history, firstUser)|);
    var range := Window.ForgottenRange(history, kept);
    a, b := range.0, range.1;
    AskCondenses(s, env);
    SomeEventForgotten(history, firstUser);
    RangeBounds(history, kept);
    Window.RangeClear(history, firstUser);
    Window.RangeMatchesWindow(history, firstUser);
    FilterAgree(Window.OutOfRange(range), (e: Event) => !(a <= e.id <= b), history);
    RangeIsClearMeans(history, kept, a, b);
  }

  lemma {:induction false} SomeEventForgotten(history: seq<Event>, firstUser: Event)
    requires history != [] && Increasing(history) && Window.UserKnown(history, firstUser)
    requires Window.Window(history, Some(firstUser)).Ok?
    requires Window.SomethingForgotten(history, Window.KeptFrom(history, |Window.Essentials(history, firstUser)|))
    ensures exists i :: 0 <= i < |history| && history[i].id !in Ids(Window.Window(history, Some(firstUser)).value)
  {
    hide Window.Window, Window.Essentials, Window.KeptFrom, Window.EssentialPositions, Increasing;
    var recent := Window.KeptFrom(history, |Window.Essentials(history, firstUser)|);
    var i :| 0 <= i < recent && i !in Window.EssentialPositions(history);
    Window.KeptFromWhere(history, firstUser, i);
  }

  lemma {:induction false} RangeBounds(history: seq<Event>, kept: seq<Event>)
    requires exists i :: 0 <= i < |history| && history[i].id !in Ids(kept)
    ensures var (a, b) := Window.ForgottenRange(history, kept);
      && a in Ids(history) && a !in Ids(kept) && b in Ids(history) && b !in Ids(kept)
      && (forall i :: 0 <= i < |history| && history[i].id !in Ids(kept) ==> a <= history[i].id <= b)
  {
    hide Window.Forgotten;
    forall i | 0 <= i < |history| && history[i].id !in Ids(kept)
      ensures Window.Forgotten(history, kept) != []
      ensures Window.MinId(Window.Forgotten(history, kept)) <= history[i].id <= Window.MaxId(Window.Forgotten(history, kept))
    {
      Window.ForgottenMember(history, kept, i);
    }
    var gone := Window.Forgotten(history, kept);
    var lo := Window.ForgottenPosition(history, kept, Window.MinId(gone));
    var hi := Window.ForgottenPosition(history, kept, Window.MaxId(gone));
    Window.MemberHasId(history, history[lo]);
    Window.MemberHasId(history, history[hi]);
  }

  lemma {:induction false} RangeIsClearMeans(history: seq<Event>, kept: seq<Event>, a: int, b: int)
    requires (a, b) == Window.ForgottenRange(history, kept)
    ensures Window.RangeIsClear(history, kept) <==> forall i :: 0 <= i < |history| && a <= history[i].id <= b ==> history[i].id !in Ids(kept)
  {
    hide Window.ForgottenRange;
  }
}
