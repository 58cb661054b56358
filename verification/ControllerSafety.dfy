/** What holds of the controller after every handled event, in every run. */
module ControllerSafety {
  import opened Sequences
  import opened Events
  import opened ControllerModel
  import Steps = ControllerSteps
  import Window = ConversationWindow

  // ----- one controller

  predicate Halted(state: AgentState) {
    state == Stopped || state == Error
  }

  /** What a controller waits for is the stream's event with that id. */
  ghost predicate Published(s: Sys) {
    s.c.pending.Some? ==> 0 <= s.c.pending.value.id < |s.w.stream| && s.w.stream[s.c.pending.value.id] == s.c.pending.value
  }

  /** Moreover a halted controller waits for nothing. */
  ghost predicate Tidy(s: Sys) {
    Published(s) && (Halted(s.c.agentState) ==> s.c.pending.None?)
  }

  /** One more iteration is allowed while traffic control is lifted. */
  function Token(c: Ctl): nat {
    if c.traffic == Lifted then 1 else 0
  }

  /** The iteration count, with `others` further iterations allowed elsewhere, is covered by the largest
      limit granted so far and one iteration for each throttled resume. */
  predicate Within(s: Sys, others: nat) {
    && s.c.maxIterations <= s.w.granted
    && others + Token(s.c) <= s.w.resumes
    && s.c.iteration + others + Token(s.c) <= s.w.granted + s.w.resumes
  }

  /** The same against the controller's own current limit. */
  predicate WithinOwnLimit(s: Sys) {
    && s.c.initialMax >= 0
    && Token(s.c) <= s.w.resumes
    && s.c.iteration + Token(s.c) <= s.c.maxIterations + s.w.resumes
  }

  predicate HeadlessAt(s: Sys, limit: int) {
    s.c.headless && s.c.maxIterations == limit && s.w.granted == limit
  }

  ghost predicate WithinKept(s: Sys, t: Sys) {
    && s.w.granted <= t.w.granted && s.w.resumes <= t.w.resumes
    && s.w.resumes - Token(s.c) <= t.w.resumes - Token(t.c)
    && (forall others: nat :: Within(s, others) ==> Within(t, others))
    && (WithinOwnLimit(s) ==> WithinOwnLimit(t))
    && (forall limit: int :: HeadlessAt(s, limit) ==> HeadlessAt(t, limit))
  }

  /** What no operation on one controller breaks. */
  ghost predicate Evolves(s: Sys, t: Sys) {
    && s.w.stream <= t.w.stream
    && t.c.delegate == s.c.delegate
    && (Tidy(s) ==> Tidy(t))
    && WithinKept(s, t)
  }

  lemma {:induction false} EvolvesTransitive(s: Sys, t: Sys, u: Sys)
    requires Evolves(s, t) && Evolves(t, u)
    ensures Evolves(s, u)
  {
  }

  // ----- set_agent_state_to

  lemma {:induction false} ResetKeeps(s: Sys)
    ensures s.w.stream <= Reset(s).w.stream && Reset(s).c == s.c.(pending := None) && WithinKept(s, Reset(s))
  {
  }

  lemma {:induction false} ResumeKeeps(s: Sys, cost: real)
    requires s.c.traffic == Throttling
    ensures var t := Resume(s, cost);
      WithinKept(s, t) && t.w.stream == s.w.stream && t.c.pending == s.c.pending && t.c.delegate == s.c.delegate
  {
  }

  lemma {:induction false} ReissueKeeps(s: Sys, confirmed: bool)
    requires s.c.pending.Some?
    ensures var t := Reissue(s, confirmed);
      && s.w.stream <= t.w.stream && Published(t) && WithinKept(s, t)
      && t.c == s.c.(pending := t.c.pending)
  {
  }

  /** The part of Evolves that entering a state keeps: the state itself is set later. */
  ghost predicate Enters(s: Sys, t: Sys) {
    && s.w.stream <= t.w.stream && t.c.delegate == s.c.delegate && WithinKept(s, t)
    && (Published(s) ==> Published(t))
  }

  lemma {:induction false} EnterKeeps(s: Sys, state: AgentState, cost: real)
    ensures Enters(s, Enter(s, state, cost))
    ensures Halted(state) ==> Enter(s, state, cost).c.pending.None?
  {
    if Halted(state) {
      ResetKeeps(s);
    } else if state == Running && s.c.agentState == Paused && s.c.traffic == Throttling {
      ResumeKeeps(s, cost);
    } else if s.c.pending.Some? && (state == UserConfirmed || state == UserRejected) {
      ReissueKeeps(s, state == UserConfirmed);
    }
  }

  lemma {:induction false} ArriveKeeps(s: Sys, state: AgentState)
    ensures Enters(s, Sys(s.c.(agentState := state), Append(s.w, Environment, StateChanged(state), None, None)))
  {
  }

  lemma {:induction false} EntersTransitive(s: Sys, t: Sys, u: Sys)
    requires Enters(s, t) && Enters(t, u)
    ensures Enters(s, u)
  {
  }

  lemma {:induction false} AppendKeeps(s: Sys, source: Source, kind: Kind, cause: Option<int>, metadata: Option<Metadata>)
    ensures Evolves(s, s.(w := Append(s.w, source, kind, cause, metadata)))
  {
  }

  /** Entering another state needs no tidiness beforehand, unless the state is a halting one already. */
  lemma {:induction false} SetStateKeeps(s: Sys, state: AgentState, cost: real)
    ensures var t := SetState(s, state, cost);
      && Enters(s, t) && t.c.agentState == state
      && (Published(s) && (Halted(state) ==> Tidy(s)) ==> Tidy(t))
  {
    var t := Enter(s, state, cost);
    EnterKeeps(s, state, cost);
    ArriveKeeps(t, state);
    if state != s.c.agentState { EntersTransitive(s, t, SetState(s, state, cost)); }
  }

  lemma {:induction false} SetStateEvolves(s: Sys, state: AgentState, cost: real)
    ensures Evolves(s, SetState(s, state, cost))
  {
    SetStateKeeps(s, state, cost);
  }

  // ----- _step

  lemma {:induction false} HandleTrafficEvolves(s: Sys, cost: real)
    ensures Evolves(s, HandleTraffic(s, cost).1)
  {
    if s.c.traffic != Lifted {
      var t := s.(c := s.c.(traffic := Throttling));
      SetStateKeeps(t, Error, cost);
      EvolvesTransitive(s, t, SetState(t, Error, cost));
    }
  }

  lemma {:induction false} CheckLimitsEvolves(s: Sys, cost: real)
    ensures Evolves(s, CheckLimits(s, cost).1)
  {
    var (stop, t) := CheckIterations(s, cost);
    HandleTrafficEvolves(s, cost);
    HandleTrafficEvolves(t, cost);
    EvolvesTransitive(s, t, CheckLimits(s, cost).1);
  }

  /** The checks let a step go on only below the limit, or by spending the token. */
  lemma {:induction false} CheckLimitsPass(s: Sys, cost: real)
    requires !CheckLimits(s, cost).0
    ensures var t := CheckLimits(s, cost).1;
      && (t == s || t == s.(c := s.c.(traffic := Normal)))
      && (s.c.iteration >= s.c.maxIterations ==> s.c.traffic == Lifted && t.c.traffic == Normal)
  {
    TrafficPass(s, cost);
    TrafficPass(CheckIterations(s, cost).1, cost);
  }

  lemma {:induction false} TrafficPass(s: Sys, cost: real)
    ensures HandleTraffic(s, cost).0 <==> s.c.traffic != Lifted
    ensures !HandleTraffic(s, cost).0 ==> HandleTraffic(s, cost).1 == s.(c := s.c.(traffic := Normal))
  {
  }

  lemma {:induction false} IssueEvolves(s: Sys, kind: Kind, metadata: Option<Metadata>, source: Source, cost: real)
    requires s.c.agentState == Running
    ensures Evolves(s, Issue(s, kind, metadata, source, cost))
  {
    SetStateKeeps(s, AwaitingUserConfirmation, cost);
    if !kind.NullAction? {
      var t := if kind.RunCommand? && kind.confirmation == Awaiting then SetState(s, AwaitingUserConfirmation, cost) else s;
      PublishEvolves(t, kind, metadata, source);
      EvolvesTransitive(s, t, Issue(s, kind, metadata, source, cost));
    }
  }

  lemma {:induction false} PublishEvolves(s: Sys, kind: Kind, metadata: Option<Metadata>, source: Source)
    requires !Halted(s.c.agentState)
    ensures var w := Append(s.w, source, kind, None, metadata);
      Evolves(s, Sys(s.c.(pending := Some(Last(w))), w)) && Evolves(s, Sys(s.c, w))
  {
  }

  lemma {:induction false} ContextEvolves(s: Sys, cost: real)
    ensures Evolves(s, HandleContextExceeded(s, cost))
  {
    SetStateEvolves(s, Error, cost);
    match Window.Window(s.c.history, FirstUserIn(s.w.stream, s.c.startId))
    case Err(_) =>
    case Ok(kept) =>
      var range := Window.ForgottenRange(s.c.history, kept);
      AppendKeeps(s, Agent, Condensation(range.0, range.1), None, None);
  }

  /** What comes after counting the iteration. */
  lemma {:induction false} AskEvolves(s: Sys, env: Env)
    requires s.c.agentState == Running
    ensures Evolves(s.(c := s.c.(iteration := s.c.iteration + 1)), Ask(s, env))
  {
    var t := s.(c := s.c.(iteration := s.c.iteration + 1));
    match env.outcome
    case Acts(kind, metadata, source) => IssueEvolves(t, AsIssued(t.c, kind), metadata, source, env.cost);
    case BadResponse => AppendKeeps(t, Agent, ErrorObservation, None, None);
    case ContextExceeded => ContextEvolves(t, env.cost);
    case Fails(rateLimited) =>
      SetStateEvolves(t, Error, env.cost);
      SetStateEvolves(t, RateLimited, env.cost);
  }

  lemma {:induction false} CountEvolves(s: Sys, t: Sys)
    requires t == s || t == s.(c := s.c.(traffic := Normal))
    requires s.c.iteration >= s.c.maxIterations ==> s.c.traffic == Lifted && t.c.traffic == Normal
    ensures Evolves(s, t.(c := t.c.(iteration := t.c.iteration + 1)))
  {
  }

  lemma {:induction false} StepEvolves(s: Sys, env: Env)
    ensures Evolves(s, Step(s, env))
  {
    if s.c.agentState == Running && s.c.pending.None? {
      var (stop, t) := CheckLimits(s, env.cost);
      CheckLimitsEvolves(s, env.cost);
      if !stop {
        CheckLimitsPass(s, env.cost);
        ProceedEvolves(s, t, env);
      }
    }
  }

  lemma {:induction false} ProceedEvolves(s: Sys, t: Sys, env: Env)
    requires s.c.agentState == Running && (t == s || t == s.(c := s.c.(traffic := Normal))) && Evolves(s, t)
    requires s.c.iteration >= s.c.maxIterations ==> s.c.traffic == Lifted && t.c.traffic == Normal
    ensures Evolves(s, Proceed(t, env))
  {
    if env.stuck {
      SetStateEvolves(t, Error, env.cost);
      EvolvesTransitive(s, t, Proceed(t, env));
    } else {
      CountEvolves(s, t);
      AskEvolves(t, env);
      EvolvesTransitive(s, t.(c := t.c.(iteration := t.c.iteration + 1)), Proceed(t, env));
    }
  }

  // ----- one event

  lemma {:induction false} RecordEvolves(s: Sys, e: Event)
    ensures Evolves(s, Record(s, e))
  {
  }

  lemma {:induction false} ObservationEvolves(s: Sys, e: Event, cost: real)
    ensures Evolves(s, HandleObservation(s, e, cost))
  {
    var t := s.(c := s.c.(pending := None));
    assert Evolves(s, t);
    SetStateEvolves(t, Running, cost);
    SetStateEvolves(t, AwaitingUserInput, cost);
    EvolvesTransitive(s, t, SetState(t, Running, cost));
    EvolvesTransitive(s, t, SetState(t, AwaitingUserInput, cost));
  }

  lemma {:induction false} ExtendEvolves(s: Sys)
    ensures Evolves(s, Extend(s))
  {
  }

  /** The recall is pending even in a halted controller, but only until it is set running. */
  lemma {:induction false} RecallEvolves(s: Sys, content: string, cost: real)
    ensures Evolves(s, SetState(AwaitRecall(s, content), Running, cost))
  {
    var t := AwaitRecall(s, content);
    assert s.w.stream <= t.w.stream && Published(t) && WithinKept(s, t) && t.c.delegate == s.c.delegate;
    SetStateKeeps(t, Running, cost);
  }

  lemma {:induction false} MessageEvolves(s: Sys, e: Event, cost: real)
    requires e.kind.Message?
    ensures Evolves(s, HandleMessage(s, e, cost))
  {
    ExtendEvolves(s);
    RecallEvolves(Extend(s), e.kind.content, cost);
    SetStateEvolves(s, AwaitingUserInput, cost);
    if e.source == User { EvolvesTransitive(s, Extend(s), HandleMessage(s, e, cost)); }
  }

  lemma {:induction false} DispatchEvolves(s: Sys, e: Event, env: Env)
    requires !e.kind.DelegateAction?
    ensures Evolves(s, Dispatch(s, e, env))
  {
    ObservationEvolves(s, e, env.cost);
    match e.kind
    case ChangeState(target) => SetStateEvolves(s, target, env.cost);
    case Message(_, _) => MessageEvolves(s, e, env.cost);
    case Finish => SetStateEvolves(s, Finished, env.cost);
    case Reject => SetStateEvolves(s, Rejected, env.cost);
    case _ =>
  }

  lemma {:induction false} MaybeStepEvolves(s: Sys, e: Event, env: Env)
    ensures Evolves(s, MaybeStep(s, e, env))
  {
    StepEvolves(s, env);
  }

  lemma {:induction false} HandleEvolves(s: Sys, e: Event, env: Env)
    requires !e.kind.DelegateAction?
    ensures Evolves(s, Handle(s, e, env))
  {
    var t := Record(s, e);
    var u := Dispatch(t, e, env);
    RecordEvolves(s, e);
    DispatchEvolves(t, e, env);
    MaybeStepEvolves(u, e, env);
    EvolvesTransitive(s, t, u);
    EvolvesTransitive(s, u, MaybeStep(u, e, env));
  }

  // ----- the chain of delegates

  ghost predicate AllTidy(s: Sys)
    decreases s.c
  {
    Tidy(s) && (s.c.delegate.Some? ==> AllTidy(Sys(s.c.delegate.value, s.w)))
  }

  function Tokens(c: Ctl): nat {
    Token(c) + if c.delegate.Some? then Tokens(c.delegate.value) else 0
  }

  function TokensBelow(c: Ctl): nat {
    if c.delegate.Some? then Tokens(c.delegate.value) else 0
  }

  /** Every controller of the chain is within the limits, counting the tokens of all the others. */
  ghost predicate Ledger(s: Sys, above: nat)
    decreases s.c
  {
    && Within(s, above + TokensBelow(s.c))
    && (s.c.delegate.Some? ==> Ledger(Sys(s.c.delegate.value, s.w), above + Token(s.c)))
  }

  /** All controllers of the chain run headless at the same limit. */
  ghost predicate HeadlessChain(s: Sys, limit: int)
    decreases s.c
  {
    HeadlessAt(s, limit) && (s.c.delegate.Some? ==> HeadlessChain(Sys(s.c.delegate.value, s.w), limit))
  }

  ghost predicate ChainEvolves(s: Sys, t: Sys) {
    && s.w.stream <= t.w.stream && s.w.granted <= t.w.granted && s.w.resumes <= t.w.resumes
    && s.w.resumes - Tokens(s.c) <= t.w.resumes - Tokens(t.c)
    && (AllTidy(s) ==> AllTidy(t))
    && (forall above: nat :: Ledger(s, above) ==> Ledger(t, above))
    && (forall limit: int :: HeadlessChain(s, limit) ==> HeadlessChain(t, limit))
  }

  lemma {:induction false} ChainTransitive(s: Sys, t: Sys, u: Sys)
    requires ChainEvolves(s, t) && ChainEvolves(t, u)
    ensures ChainEvolves(s, u)
  {
  }

  /** A controller that does nothing is not disturbed by what happens around it. */
  lemma {:induction false} TidyAround(c: Ctl, w: World, v: World)
    requires AllTidy(Sys(c, w)) && w.stream <= v.stream
    ensures AllTidy(Sys(c, v))
    decreases c
  {
    if c.delegate.Some? { TidyAround(c.delegate.value, w, v); }
  }

  lemma {:induction false} LedgerAround(c: Ctl, w: World, v: World, above: nat, above': nat)
    requires Ledger(Sys(c, w), above)
    requires w.granted <= v.granted && w.resumes <= v.resumes && w.resumes - above <= v.resumes - above'
    ensures Ledger(Sys(c, v), above')
    decreases c
  {
    if c.delegate.Some? { LedgerAround(c.delegate.value, w, v, above + Token(c), above' + Token(c)); }
  }

  lemma {:induction false} HeadlessAround(c: Ctl, w: World, v: World, limit: int)
    requires HeadlessChain(Sys(c, w), limit) && v.granted == limit
    ensures HeadlessChain(Sys(c, v), limit)
    decreases c
  {
    if c.delegate.Some? { HeadlessAround(c.delegate.value, w, v, limit); }
  }

  lemma {:induction false} ChainOfOne(s: Sys, t: Sys)
    requires Evolves(s, t)
    ensures ChainEvolves(s, t)
  {
    if s.c.delegate.Some? {
      var d := s.c.delegate.value;
      if AllTidy(s) { TidyAround(d, s.w, t.w); }
      forall above: nat | Ledger(s, above) ensures Ledger(t, above) {
        assert Within(s, above + TokensBelow(s.c));
        LedgerAround(d, s.w, t.w, above + Token(s.c), above + Token(t.c));
      }
      forall limit: int | HeadlessChain(s, limit) ensures HeadlessChain(t, limit) {
        assert HeadlessAt(s, limit);
        HeadlessAround(d, s.w, t.w, limit);
      }
    } else {
      forall above: nat | Ledger(s, above) ensures Ledger(t, above) {
        assert Within(s, above);
      }
      forall limit: int | HeadlessChain(s, limit) ensures HeadlessChain(t, limit) {
        assert HeadlessAt(s, limit);
      }
    }
  }

  /** A new delegate starts at its parent's count and limit, without a token. */
  lemma {:induction false} AttachEvolves(s: Sys, d: Ctl)
    requires d == NewDelegate(s.c, s.w, d.truncates)
    ensures ChainEvolves(s, s.(c := s.c.(delegate := Some(d))))
  {
    var t := s.(c := s.c.(delegate := Some(d)));
    assert Tokens(d) == 0 && TokensBelow(t.c) == 0;
    forall above: nat | Ledger(s, above) ensures Ledger(t, above) {
      assert Within(s, above + TokensBelow(s.c));
    }
  }

  /** What happens to the delegate of a controller that itself does nothing. */
  lemma {:induction false} BelowEvolves(c: Ctl, s: Sys, t: Sys)
    requires ChainEvolves(s, t)
    ensures ChainEvolves(Sys(c.(delegate := Some(s.c)), s.w), Sys(c.(delegate := Some(t.c)), t.w))
  {
    var a, b := Sys(c.(delegate := Some(s.c)), s.w), Sys(c.(delegate := Some(t.c)), t.w);
    forall above: nat | Ledger(a, above) ensures Ledger(b, above) {
      assert Ledger(s, above + Token(c));
    }
    forall limit: int | HeadlessChain(a, limit) ensures HeadlessChain(b, limit) {
      assert HeadlessChain(s, limit);
    }
  }

  lemma {:induction false} DelegateEvolves(s: Sys, task: Option<string>, env: Env)
    ensures ChainEvolves(s, Delegate(s, task, env))
  {
    var d := NewDelegate(s.c, s.w, env.delegateTruncates);
    var w0 := if env.delegateSystemMessage then Append(s.w, Agent, SystemMessage, None, None) else s.w;
    var a := s.(c := s.c.(delegate := Some(d)));
    AttachEvolves(s, d);
    AppendKeeps(a, Agent, SystemMessage, None, None);
    if env.delegateSystemMessage {
      ChainOfOne(a, a.(w := w0));
      ChainTransitive(s, a, a.(w := w0));
    }
    if task.Some? { HandOver(s, a.(w := w0), d, task.value, env.cost); }
  }

  lemma {:induction false} HandOver(s: Sys, a: Sys, d: Ctl, task: string, cost: real)
    requires ChainEvolves(s, a) && a.c.delegate == Some(d)
    ensures var t := SetState(Sys(d, Append(a.w, User, Message("TASK: " + task, false), None, None)), Running, cost);
      ChainEvolves(s, Sys(a.c.(delegate := Some(t.c)), t.w))
  {
    var w1 := Append(a.w, User, Message("TASK: " + task, false), None, None);
    AppendKeeps(Sys(d, a.w), User, Message("TASK: " + task, false), None, None);
    SetStateEvolves(Sys(d, w1), Running, cost);
    var t := SetState(Sys(d, w1), Running, cost);
    EvolvesTransitive(Sys(d, a.w), Sys(d, w1), t);
    ChainOfOne(Sys(d, a.w), t);
    BelowEvolves(a.c, Sys(d, a.w), t);
    assert a.c.(delegate := Some(d)) == a.c;
    ChainTransitive(s, a, Sys(a.c.(delegate := Some(t.c)), t.w));
  }

  lemma {:induction false} HandleChain(s: Sys, e: Event, env: Env)
    ensures ChainEvolves(s, Handle(s, e, env))
  {
    if e.kind.DelegateAction? && !e.hidden {
      var t := Record(s, e);
      var u := Delegate(t, e.kind.task, env);
      RecordEvolves(s, e);
      ChainOfOne(s, t);
      DelegateEvolves(t, e.kind.task, env);
      ChainTransitive(s, t, u);
      MaybeStepEvolves(u, e, env);
      ChainOfOne(u, MaybeStep(u, e, env));
      ChainTransitive(s, u, MaybeStep(u, e, env));
    } else if !e.hidden {
      HandleEvolves(s, e, env);
      ChainOfOne(s, Handle(s, e, env));
    }
  }

  lemma {:induction false} EndDelegateEvolves(s: Sys, cost: real)
    requires s.c.delegate.Some?
    ensures ChainEvolves(s, EndDelegate(s, cost))
  {
    var d := Sys(s.c.delegate.value, s.w);
    SetStateEvolves(d, Stopped, cost);
    var t := EndDelegate(s, cost);
    forall above: nat | Ledger(s, above) ensures Ledger(t, above) {
      assert Ledger(d, above + Token(s.c));
      assert Within(s, above + TokensBelow(s.c)) && Within(d, above + Token(s.c) + TokensBelow(d.c));
    }
    forall limit: int | HeadlessChain(s, limit) ensures HeadlessChain(t, limit) {
      assert HeadlessChain(d, limit) && HeadlessAt(d, limit);
    }
  }

  lemma {:induction false} NextEvolves(s: Sys, input: Input)
    ensures ChainEvolves(s, Next(s, input))
  {
    match input
    case Command(state, cost) =>
      SetStateEvolves(s, state, cost);
      ChainOfOne(s, SetState(s, state, cost));
    case Deliver(e, env) =>
      if s.c.delegate.None? {
        HandleChain(s, e, env);
      } else if Done(s.c.delegate.value.agentState) {
        EndDelegateEvolves(s, env.cost);
      } else {
        var d := Sys(s.c.delegate.value, s.w);
        HandleChain(d, e, env);
        BelowEvolves(s.c, d, Handle(d, e, env));
        assert s.c.(delegate := Some(d.c)) == s.c;
      }
  }

  // ----- whole runs

  function Run(s: Sys, inputs: seq<Input>): Sys {
    if inputs == [] then s else Next(Run(s, inputs[..|inputs| - 1]), inputs[|inputs| - 1])
  }

  lemma {:induction false} RunEvolves(s: Sys, inputs: seq<Input>)
    ensures ChainEvolves(s, Run(s, inputs))
  {
    if inputs != [] {
      var t := Run(s, inputs[..|inputs| - 1]);
      RunEvolves(s, inputs[..|inputs| - 1]);
      NextEvolves(t, inputs[|inputs| - 1]);
      ChainTransitive(s, t, Run(s, inputs));
    }
  }

  /** The controller that does the work: the one at the end of the chain of delegates. */
  function Deepest(c: Ctl): Ctl {
    if c.delegate.Some? then Deepest(c.delegate.value) else c
  }

  lemma {:induction false} LedgerDeepest(s: Sys, above: nat)
    requires Ledger(s, above)
    ensures Deepest(s.c).iteration + above + Tokens(s.c) <= s.w.granted + s.w.resumes
    decreases s.c
  {
    assert Within(s, above + TokensBelow(s.c));
    if s.c.delegate.Some? { LedgerDeepest(Sys(s.c.delegate.value, s.w), above + Token(s.c)); }
  }

  /** Fresh from its constructor: nothing pending, no delegate, no traffic control, at or below its limit. */
  ghost predicate Fresh(s: Sys) {
    && s.c.agentState == Loading && s.c.pending.None? && s.c.delegate.None? && s.c.traffic == Normal
    && s.c.iteration <= s.c.maxIterations && s.w.granted == s.c.maxIterations && s.w.resumes == 0
  }

  /** Pending-action safety over whole runs, for the controller and all its delegates: STOPPED or ERROR
      leaves nothing pending, and what is pending is exactly the stream's event with that id. */
  lemma {:induction false} PendingSafety(s: Sys, inputs: seq<Input>)
    requires Fresh(s)
    ensures AllTidy(Run(s, inputs))
  {
    RunEvolves(s, inputs);
  }

  /** Iteration overrun over whole runs, headless, with nested delegates: whoever works has used at most
      the limit plus one iteration for each throttled resume, even counting the iterations that controllers
      on the chain are still allowed beyond the limit. The limit itself never moves. */
  lemma {:induction false} HeadlessOverrun(s: Sys, inputs: seq<Input>)
    requires Fresh(s) && s.c.headless
    ensures var t := Run(s, inputs);
      && Deepest(t.c).iteration + Tokens(t.c) <= s.c.maxIterations + t.w.resumes
      && t.c.iteration + Token(t.c) <= s.c.maxIterations + t.w.resumes
      && HeadlessChain(t, s.c.maxIterations)
  {
    var t := Run(s, inputs);
    RunEvolves(s, inputs);
    assert Within(s, 0) && Ledger(s, 0);
    assert HeadlessChain(s, s.c.maxIterations);
    LedgerDeepest(t, 0);
    assert Within(t, TokensBelow(t.c));
  }

  /** The same in any mode, against the largest limit that was ever granted. */
  lemma {:induction false} Overrun(s: Sys, inputs: seq<Input>)
    requires Fresh(s)
    ensures var t := Run(s, inputs);
      && Deepest(t.c).iteration + Tokens(t.c) <= t.w.granted + t.w.resumes
      && t.c.iteration + Token(t.c) <= t.w.granted + t.w.resumes
  {
    var t := Run(s, inputs);
    RunEvolves(s, inputs);
    assert Within(s, 0) && Ledger(s, 0);
    LedgerDeepest(t, 0);
    assert Within(t, TokensBelow(t.c));
  }

  predicate NoDelegation(inputs: seq<Input>) {
    forall i :: 0 <= i < |inputs| && inputs[i].Deliver? ==> !inputs[i].e.kind.DelegateAction?
  }

  /** A controller that never delegates keeps to its own current limit, in any mode, although user
      messages may lower that limit. */
  lemma {:induction false} SoloOverrun(s: Sys, inputs: seq<Input>)
    requires Fresh(s) && s.c.initialMax >= 0 && NoDelegation(inputs)
    ensures var t := Run(s, inputs);
      && t.c.delegate.None? && WithinOwnLimit(t)
      && t.c.iteration + Token(t.c) <= t.c.maxIterations + t.w.resumes
  {
    if inputs != [] {
      var t, input := Run(s, inputs[..|inputs| - 1]), inputs[|inputs| - 1];
      SoloOverrun(s, inputs[..|inputs| - 1]);
      match input
      case Command(state, cost) => SetStateEvolves(t, state, cost);
      case Deliver(e, env) => HandleEvolves(t, e, env);
    }
  }

  // ----- asking the agent

  lemma {:induction false} SetStateKeepsIteration(s: Sys, state: AgentState, cost: real)
    ensures SetState(s, state, cost).c.iteration == s.c.iteration
  {
  }

  lemma {:induction false} TrafficKeepsIteration(s: Sys, cost: real)
    ensures HandleTraffic(s, cost).1.c.iteration == s.c.iteration
  {
    SetStateKeepsIteration(s.(c := s.c.(traffic := Throttling)), Error, cost);
  }

  lemma {:induction false} LimitsKeepIteration(s: Sys, cost: real)
    ensures CheckLimits(s, cost).1.c.iteration == s.c.iteration
  {
    TrafficKeepsIteration(s, cost);
    TrafficKeepsIteration(CheckIterations(s, cost).1, cost);
  }

  lemma {:induction false} IssueKeepsIteration(s: Sys, kind: Kind, metadata: Option<Metadata>, source: Source, cost: real)
    ensures Issue(s, kind, metadata, source, cost).c.iteration == s.c.iteration
  {
    SetStateKeepsIteration(s, AwaitingUserConfirmation, cost);
  }

  lemma {:induction false} AskCounts(s: Sys, env: Env)
    ensures Ask(s, env).c.iteration == s.c.iteration + 1
  {
    var t := s.(c := s.c.(iteration := s.c.iteration + 1));
    SetStateKeepsIteration(t, Error, env.cost);
    match env.outcome
    case Acts(kind, metadata, source) => IssueKeepsIteration(t, AsIssued(t.c, kind), metadata, source, env.cost);
    case BadResponse =>
    case ContextExceeded => ContextKeepsIteration(t, env.cost);
    case Fails(rateLimited) => SetStateKeepsIteration(t, RateLimited, env.cost);
  }

  lemma {:induction false} ContextKeepsIteration(s: Sys, cost: real)
    ensures HandleContextExceeded(s, cost).c.iteration == s.c.iteration
  {
    SetStateKeepsIteration(s, Error, cost);
  }

  /** A stop decided by the iteration limit stands, whatever the budget check decides after it. */
  lemma {:induction false} IterationStopStands(s: Sys, env: Env)
    requires s.c.agentState == Running && s.c.pending.None?
    requires s.c.iteration >= s.c.maxIterations && s.c.traffic != Lifted
    ensures Step(s, env).c.iteration == s.c.iteration
    ensures Step(s, env).c.agentState == Error && Step(s, env).c.traffic == Throttling
  {
    var (stop, t) := CheckIterations(s, env.cost);
    StoppedByTraffic(s, env.cost);
    StoppedByTraffic(t, env.cost);
  }

  lemma {:induction false} StoppedByTraffic(s: Sys, cost: real)
    requires s.c.traffic != Lifted
    ensures HandleTraffic(s, cost).0
    ensures var t := HandleTraffic(s, cost).1;
      t.c.iteration == s.c.iteration && t.c.agentState == Error && t.c.traffic == Throttling
  {
  }

  /** The events after which a controller may ask its agent: a condensation, a message that is not the user's,
      and an observation other than an announced state or a null observation that answers nothing. */
  predicate AsksFor(e: Event) {
    || e.kind.Condensation?
    || (e.kind.Message? && e.source != User)
    || (IsObservation(e) && !e.kind.StateChanged? && (e.kind.NullObservation? ==> e.cause.Some? && e.cause.value > 0))
  }

  /** What setting a state leaves alone. */
  lemma {:induction false} SetStateLeaves(s: Sys, state: AgentState, cost: real)
    ensures var t := SetState(s, state, cost);
      && t.c.iteration == s.c.iteration && t.c.delegate == s.c.delegate
      && (state == Running && s.c.pending.Some? ==> t.c.pending.Some?)
  {
  }

  lemma {:induction false} DispatchKeepsCount(s: Sys, e: Event, env: Env)
    ensures var t := Dispatch(s, e, env);
      && t.c.iteration == s.c.iteration
      && (t.c.delegate.Some? <==> s.c.delegate.Some? || e.kind.DelegateAction?)
      && (e.kind.Message? && e.source == User ==> t.c.pending.Some?)
  {
    hide SetState, Delegate;
    if IsObservation(e) {
      ObservationKeepsCount(s, e, env.cost);
    } else {
      match e.kind
      case ChangeState(target) => SetStateLeaves(s, target, env.cost);
      case Message(content, _) =>
        SetStateLeaves(AwaitRecall(Extend(s), content), Running, env.cost);
        SetStateLeaves(s, AwaitingUserInput, env.cost);
      case DelegateAction(task) => DelegateKeepsCount(s, task, env);
      case Finish => SetStateLeaves(s, Finished, env.cost);
      case Reject => SetStateLeaves(s, Rejected, env.cost);
      case _ =>
    }
  }

  lemma {:induction false} DelegateKeepsCount(s: Sys, task: Option<string>, env: Env)
    ensures var t := Delegate(s, task, env);
      t.c.iteration == s.c.iteration && t.c.delegate.Some?
  {
  }

  lemma {:induction false} ObservationKeepsCount(s: Sys, e: Event, cost: real)
    ensures var t := HandleObservation(s, e, cost);
      t.c.iteration == s.c.iteration && t.c.delegate == s.c.delegate
  {
    hide SetState;
    var t := s.(c := s.c.(pending := None));
    SetStateLeaves(t, Running, cost);
    SetStateLeaves(t, AwaitingUserInput, cost);
  }

  lemma {:induction false} StepCounts(s: Sys, env: Env)
    ensures Step(s, env).c.iteration == s.c.iteration + (
      if s.c.agentState == Running && s.c.pending.None? && !Steps.LimitsStop(s.c, env.cost) && !env.stuck then 1 else 0)
  {
    if s.c.agentState == Running && s.c.pending.None? {
      var (stop, t) := CheckLimits(s, env.cost);
      LimitsKeepIteration(s, env.cost);
      Steps.LimitsGiven(s, env.cost);
      if !stop {
        SetStateKeepsIteration(t, Error, env.cost);
        if !env.stuck { AskCounts(t, env); }
      }
    }
  }

  /** A controller that is not running, or waits for an observation, ignores whatever the agent would
      have done; one that asks counts exactly one iteration. */
  lemma {:induction false} StepAsksOnlyWhenIdle(s: Sys, env: Env)
    ensures s.c.agentState != Running || s.c.pending.Some? ==> Step(s, env) == s
    ensures Step(s, env).c.iteration == s.c.iteration || Step(s, env).c.iteration == s.c.iteration + 1
    ensures Step(s, env).c.iteration == s.c.iteration ==>
      forall outcome :: Step(s, env.(outcome := outcome)) == Step(s, env)
  {
    hide CheckLimits, Proceed, Ask, Steps.LimitsStop;
    StepCounts(s, env);
    if s.c.agentState == Running && s.c.pending.None? && Step(s, env).c.iteration == s.c.iteration {
      hide Step;
      Steps.LimitsDecide(s, env);
      forall outcome ensures Step(s, env.(outcome := outcome)) == Step(s, env) {
        Steps.LimitsDecide(s, env.(outcome := outcome));
      }
    }
  }

  /** Handling an event counts an iteration exactly when the event is one of those, nobody else works on the
      task, and the controller is then running, waiting for nothing, within its limits and not stuck. In
      particular neither a user message, whose recall is pending first, nor a delegation makes it count. */
  lemma {:induction false} CountsWhen(s: Sys, e: Event, env: Env)
    ensures var t := Dispatch(Record(s, e), e, env);
      Handle(s, e, env).c.iteration == s.c.iteration + (
        if !e.hidden && AsksFor(e) && s.c.delegate.None?
           && t.c.agentState == Running && t.c.pending.None? && !Steps.LimitsStop(t.c, env.cost) && !env.stuck
        then 1 else 0)
  {
    hide Dispatch, Step, Steps.LimitsStop;
    var t := Dispatch(Record(s, e), e, env);
    DispatchKeepsCount(Record(s, e), e, env);
    StepCounts(t, env);
  }

  // ----- resetting a pending action

  ghost predicate AnswersPending(e: Event, p: Event) {
    e.kind.ErrorObservation? && e.source == Agent && e.cause == Some(p.id) && e.metadata == p.metadata
  }

  /** Stopping, or failing, answers the pending action with an error observation that carries its id and
      its tool-call metadata, if and only if no observation in the history carries the same metadata. */
  lemma {:induction false} HaltAnswersPending(s: Sys, state: AgentState, cost: real)
    requires Halted(state) && state != s.c.agentState && s.c.pending.Some?
    ensures var t := SetState(s, state, cost); var added := t.w.stream[|s.w.stream|..];
      && s.w.stream <= t.w.stream && t.c.pending.None? && added != []
      && added[|added| - 1].kind == StateChanged(state)
      && (Answered(s.c.history, s.c.pending.value.metadata) ==> |added| == 1)
      && (!Answered(s.c.history, s.c.pending.value.metadata) ==> |added| == 2 && AnswersPending(added[0], s.c.pending.value))
  {
  }

  /** This includes a pending recall, which has no tool call: it too is answered with an error, unless
      some observation without tool call is in the history. */
  lemma {:induction false} HaltAnswersRecall(s: Sys, state: AgentState, cost: real)
    requires Halted(state) && state != s.c.agentState
    requires s.c.pending.Some? && s.c.pending.value.kind.Recall? && s.c.pending.value.metadata == None
    requires forall i :: 0 <= i < |s.c.history| && IsObservation(s.c.history[i]) ==> s.c.history[i].metadata.Some?
    ensures var t := SetState(s, state, cost);
      |t.w.stream| == |s.w.stream| + 2 && AnswersPending(t.w.stream[|s.w.stream|], s.c.pending.value)
  {
    HaltAnswersPending(s, state, cost);
  }

  /** The first user message, once there, stays the same, so remembering it changes nothing. */
  lemma {:induction false} FirstUserStays(stream: seq<Event>, longer: seq<Event>, from: nat)
    requires stream <= longer && FirstUserIn(stream, from).Some?
    ensures FirstUserIn(longer, from) == FirstUserIn(stream, from)
  {
    var i := Window.Find(Window.IsFromUser(), stream, from);
    var j := Window.Find(Window.IsFromUser(), longer, from);
    assert longer[i] == stream[i];
    assert forall k :: from <= k < i ==> longer[k] == stream[k];
  }
}
