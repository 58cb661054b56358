/**
 The agent controller as a function of its state: what handling one event does to the controller,
 its delegates and the event stream. The class in AgentController.dfy does the same in place.
 */
module ControllerModel {
  import opened Sequences
  import opened Events
  import Window = ConversationWindow

  datatype Traffic = Normal | Throttling | Lifted

  /** One controller and, below it, the delegate it waits for. */
  datatype Ctl = Ctl(
    agentState: AgentState,
    traffic: Traffic,
    iteration: int,
    maxIterations: int,
    initialMax: int,
    maxBudget: Option<real>,
    initialBudget: Option<real>,
    headless: bool,
    hasCallback: bool,
    confirmationMode: bool,
    truncates: bool,
    history: seq<Event>,
    startId: nat,
    pending: Option<Event>,
    delegate: Option<Ctl>)

  /** The event stream, with two counters kept for the proofs: how often a throttled task was
      resumed, and the largest iteration limit any controller ever had. */
  datatype World = World(stream: seq<Event>, resumes: nat, granted: int)

  /** A controller state together with the world around it. */
  datatype Sys = Sys(c: Ctl, w: World)

  // ----- what the model does not compute is given from outside

  /** What asking the agent, or the replay, for the next action leads to. */
  datatype Outcome =
    | Acts(kind: Kind, metadata: Option<Metadata>, source: Source)
    | BadResponse
    | ContextExceeded
    | Fails(rateLimited: bool)

  datatype Env = Env(
    cost: real,
    stuck: bool,
    outcome: Outcome,
    delegateSystemMessage: bool,
    delegateTruncates: bool)

  // ----- the stream

  function Append(w: World, source: Source, kind: Kind, cause: Option<int>, metadata: Option<Metadata>): World {
    w.(stream := w.stream + [Event(|w.stream|, source, kind, cause, metadata, false)])
  }

  /** The event that Append adds. */
  function Last(w: World): Event
    requires w.stream != []
  {
    w.stream[|w.stream| - 1]
  }

  function Grant(w: World, limit: int): World {
    w.(granted := if limit > w.granted then limit else w.granted)
  }

  // ----- _reset and set_agent_state_to

  /** An observation in the history carries the given tool-call metadata. Absent metadata equals absent metadata. */
  predicate Answered(history: seq<Event>, metadata: Option<Metadata>) {
    exists i :: 0 <= i < |history| && IsObservation(history[i]) && history[i].metadata == metadata
  }

  function Reset(s: Sys): Sys {
    var w := if s.c.pending.Some? && !Answered(s.c.history, s.c.pending.value.metadata)
             then Append(s.w, Agent, ErrorObservation, Some(s.c.pending.value.id), s.c.pending.value.metadata)
             else s.w;
    Sys(s.c.(pending := None), w)
  }

  /** The user lets a throttled task go on. */
  function Resume(s: Sys, cost: real): Sys {
    var limit := if !s.c.headless && s.c.iteration >= s.c.maxIterations then s.c.maxIterations + s.c.initialMax else s.c.maxIterations;
    var budget := if s.c.maxBudget.Some? && s.c.initialBudget.Some? && cost >= s.c.maxBudget.value
                  then Some(s.c.maxBudget.value + s.c.initialBudget.value) else s.c.maxBudget;
    Sys(s.c.(traffic := Lifted, maxIterations := limit, maxBudget := budget), Grant(s.w.(resumes := s.w.resumes + 1), limit))
  }

  function WithConfirmation(kind: Kind, confirmed: bool): Kind {
    if kind.RunCommand? then kind.(confirmation := if confirmed then Confirmed else Refused) else kind
  }

  /** The pending action goes to the stream again, under a new id. */
  function Reissue(s: Sys, confirmed: bool): Sys
    requires s.c.pending.Some?
  {
    var p := s.c.pending.value;
    var w := Append(s.w, Agent, WithConfirmation(p.kind, confirmed), p.cause, p.metadata);
    Sys(s.c.(pending := Some(Last(w))), w)
  }

  /** Side effects of entering a state, before the state itself is set. */
  function Enter(s: Sys, state: AgentState, cost: real): Sys {
    if state == Stopped || state == Error then Reset(s)
    else if state == Running && s.c.agentState == Paused && s.c.traffic == Throttling then Resume(s, cost)
    else if s.c.pending.Some? && (state == UserConfirmed || state == UserRejected) then Reissue(s, state == UserConfirmed)
    else s
  }

  function SetState(s: Sys, state: AgentState, cost: real): Sys {
    if state == s.c.agentState then s
    else
      var t := Enter(s, state, cost);
      Sys(t.c.(agentState := state), Append(t.w, Environment, StateChanged(state), None, None))
  }

  function React(s: Sys, rateLimited: bool, cost: real): Sys {
    SetState(s, if s.c.hasCallback && rateLimited then RateLimited else Error, cost)
  }

  // ----- _step

  /** Whether to stop, and what became of the controller. */
  function HandleTraffic(s: Sys, cost: real): (bool, Sys) {
    if s.c.traffic == Lifted then (false, s.(c := s.c.(traffic := Normal)))
    else (true, React(s.(c := s.c.(traffic := Throttling)), false, cost))
  }

  function CheckIterations(s: Sys, cost: real): (bool, Sys) {
    if s.c.iteration >= s.c.maxIterations then HandleTraffic(s, cost) else (false, s)
  }

  /** The budget check decides anew whether to stop. */
  function CheckBudget(stop: bool, s: Sys, cost: real): (bool, Sys) {
    if s.c.maxBudget.Some? && cost > s.c.maxBudget.value then HandleTraffic(s, cost) else (stop, s)
  }

  function Runnable(kind: Kind): bool {
    kind.RunCommand? || (kind.OtherAction? && kind.runs)
  }

  function AsIssued(c: Ctl, kind: Kind): Kind {
    if c.confirmationMode && kind.RunCommand? then kind.(confirmation := Awaiting) else kind
  }

  /** Publishing the chosen action; a runnable one becomes pending. */
  function Issue(s: Sys, kind: Kind, metadata: Option<Metadata>, source: Source, cost: real): Sys {
    if kind.NullAction? then s
    else
      var t := if kind.RunCommand? && kind.confirmation == Awaiting then SetState(s, AwaitingUserConfirmation, cost) else s;
      var w := Append(t.w, source, kind, None, metadata);
      Sys(if Runnable(kind) then t.c.(pending := Some(Last(w))) else t.c, w)
  }

  /** The first user message of this controller. It may be cached: the stream only ever grows. */
  function FirstUserIn(stream: seq<Event>, from: nat): Option<Event> {
    if from > |stream| then None
    else
      var i := Window.Find(Window.IsFromUser(), stream, from);
      if i < |stream| then Some(stream[i]) else None
  }

  function HandleContextExceeded(s: Sys, cost: real): Sys {
    if !s.c.truncates then React(s, false, cost)
    else match Window.Window(s.c.history, FirstUserIn(s.w.stream, s.c.startId))
      case Err(_) => React(s, false, cost)
      case Ok(kept) =>
        var range := Window.ForgottenRange(s.c.history, kept);
        s.(w := Append(s.w, Agent, Condensation(range.0, range.1), None, None))
  }

  /** The agent, or the replay, has been asked. */
  function Ask(s: Sys, env: Env): Sys {
    var t := s.(c := s.c.(iteration := s.c.iteration + 1));
    match env.outcome
    case Acts(kind, metadata, source) => Issue(t, AsIssued(t.c, kind), metadata, source, env.cost)
    case BadResponse => t.(w := Append(t.w, Agent, ErrorObservation, None, None))
    case ContextExceeded => HandleContextExceeded(t, env.cost)
    case Fails(rateLimited) => React(t, rateLimited, env.cost)
  }

  /** Both limit checks, the second deciding anew. */
  function CheckLimits(s: Sys, cost: real): (bool, Sys) {
    var (stop, t) := CheckIterations(s, cost);
    CheckBudget(stop, t, cost)
  }

  function Proceed(s: Sys, env: Env): Sys {
    if env.stuck then React(s, false, env.cost) else Ask(s, env)
  }

  function Step(s: Sys, env: Env): Sys {
    if s.c.agentState != Running || s.c.pending.Some? then s
    else
      var (stop, t) := CheckLimits(s, env.cost);
      if stop then t else Proceed(t, env)
  }

  // ----- handling events

  function HandleObservation(s: Sys, e: Event, cost: real): Sys {
    if s.c.pending.Some? && e.cause == Some(s.c.pending.value.id) then
      if s.c.agentState == AwaitingUserConfirmation then s
      else
        var t := s.(c := s.c.(pending := None));
        if t.c.agentState == UserConfirmed then SetState(t, Running, cost)
        else if t.c.agentState == UserRejected then SetState(t, AwaitingUserInput, cost)
        else t
    else s
  }

  /** A user message outside headless mode extends the limit and clears traffic control. */
  function Extend(s: Sys): Sys {
    if s.c.headless then s
    else
      var limit := s.c.iteration + s.c.initialMax;
      Sys(s.c.(maxIterations := limit, traffic := Normal), Grant(s.w, limit))
  }

  /** A user message makes the recall of its content pending. */
  function AwaitRecall(s: Sys, content: string): Sys {
    var w := Append(s.w, User, Recall(content), None, None);
    Sys(s.c.(pending := Some(Last(w))), w)
  }

  function HandleMessage(s: Sys, e: Event, cost: real): Sys
    requires e.kind.Message?
  {
    if e.source == User then SetState(AwaitRecall(Extend(s), e.kind.content), Running, cost)
    else if e.source == Agent && e.kind.waitForResponse then SetState(s, AwaitingUserInput, cost)
    else s
  }

  function NewDelegate(c: Ctl, w: World, truncates: bool): Ctl
  {
    Ctl(Loading, Normal, c.iteration, c.maxIterations, c.maxIterations, c.maxBudget, c.maxBudget,
        c.headless, false, false, truncates, [], |w.stream|, None, None)
  }

  /** start_delegate, and handing over the task if there is one. */
  function Delegate(s: Sys, task: Option<string>, env: Env): Sys
  {
    var d := NewDelegate(s.c, s.w, env.delegateTruncates);
    var w0 := if env.delegateSystemMessage then Append(s.w, Agent, SystemMessage, None, None) else s.w;
    if task.None? then Sys(s.c.(delegate := Some(d)), w0)
    else
      var w1 := Append(w0, User, Message("TASK: " + task.value, false), None, None);
      var t := SetState(Sys(d, w1), Running, env.cost);
      Sys(s.c.(delegate := Some(t.c)), t.w)
  }

  function HandleAction(s: Sys, e: Event, env: Env): Sys
  {
    match e.kind
    case ChangeState(target) => SetState(s, target, env.cost)
    case Message(_, _) => HandleMessage(s, e, env.cost)
    case DelegateAction(task) => Delegate(s, task, env)
    case Finish => SetState(s, Finished, env.cost)
    case Reject => SetState(s, Rejected, env.cost)
    case _ => s
  }

  function ShouldStep(c: Ctl, e: Event): bool {
    if c.delegate.Some? then false
    else if IsObservation(e) then
      if e.kind.NullObservation? then e.cause.Some? && e.cause.value > 0
      else !e.kind.StateChanged?
    else
      || (e.kind.Message? && (e.source == User || c.agentState != AwaitingUserInput))
      || e.kind.DelegateAction? || e.kind.Condensation?
  }

  /** The event enters the history unless its type is filtered out. */
  function Record(s: Sys, e: Event): Sys {
    if FilteredOut(e) then s else s.(c := s.c.(history := s.c.history + [e]))
  }

  function Dispatch(s: Sys, e: Event, env: Env): Sys {
    if IsObservation(e) then HandleObservation(s, e, env.cost) else HandleAction(s, e, env)
  }

  function MaybeStep(s: Sys, e: Event, env: Env): Sys {
    if ShouldStep(s.c, e) then Step(s, env) else s
  }

  /** _on_event: one controller handles one event. */
  function Handle(s: Sys, e: Event, env: Env): Sys
  {
    if e.hidden then s else MaybeStep(Dispatch(Record(s, e), e, env), e, env)
  }

  function LastDelegateAction(history: seq<Event>): Option<Event> {
    if history == [] then None
    else if history[|history| - 1].kind.DelegateAction? then Some(history[|history| - 1])
    else LastDelegateAction(history[..|history| - 1])
  }

  /** end_delegate: take over the iteration count, stop the delegate, publish its result. */
  function EndDelegate(s: Sys, cost: real): Sys
    requires s.c.delegate.Some?
  {
    var d := s.c.delegate.value;
    var closed := SetState(Sys(d, s.w), Stopped, cost);
    var asked := LastDelegateAction(s.c.history);
    var metadata := if asked.Some? then asked.value.metadata else None;
    Sys(s.c.(iteration := d.iteration, delegate := None), Append(closed.w, Agent, DelegateObservation, None, metadata))
  }

  predicate Done(state: AgentState) {
    state == Finished || state == Error || state == Rejected
  }

  /** on_event: events go to a delegate that is not done; a done delegate is ended. */
  function OnEvent(s: Sys, e: Event, env: Env): Sys
  {
    if s.c.delegate.None? then Handle(s, e, env)
    else if Done(s.c.delegate.value.agentState) then EndDelegate(s, env.cost)
    else
      var t := Handle(Sys(s.c.delegate.value, s.w), e, env);
      Sys(s.c.(delegate := Some(t.c)), t.w)
  }

  /** An event is delivered, or the session sets the state directly. */
  datatype Input = Deliver(e: Event, env: Env) | Command(state: AgentState, cost: real)

  function Next(s: Sys, input: Input): Sys
  {
    match input
    case Deliver(e, env) => OnEvent(s, e, env)
    case Command(state, cost) => SetState(s, state, cost)
  }
}
