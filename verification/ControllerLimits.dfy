/**
 When a controller keeps to its own iteration limit: in headless mode always, outside it not, because a delegate's
 limit can be extended while the parent's stays, and the parent takes over the delegate's count.
 */
module ControllerLimits {
  import opened Sequences
  import opened Events
  import opened ControllerModel
  import opened ControllerSafety

  /** The count, with the iteration still allowed, stays within the current limit and the throttled resumes. */
  predicate KeepsOwnLimit(s: Sys) {
    s.c.iteration + Token(s.c) <= s.c.maxIterations + s.w.resumes
  }

  // ----- runs put together from shorter runs

  lemma {:induction false} RunAppend(s: Sys, a: seq<Input>, b: seq<Input>)
    ensures Run(s, a + b) == Run(Run(s, a), b)
  {
    if b == [] {
      assert a + b == a;
    } else {
      var last := |b| - 1;
      RunAppend(s, a, b[..last]);
      assert (a + b)[..|a + b| - 1] == a + b[..last];
    }
  }

  lemma {:induction false} RunOne(s: Sys, input: Input)
    ensures Run(s, [input]) == Next(s, input)
  {
    assert [input][..0] == [];
  }

  lemma {:induction false} RunTwo(s: Sys, a: Input, b: Input)
    ensures Run(s, [a, b]) == Next(Next(s, a), b)
  {
    RunOne(s, a);
    assert [a, b][..1] == [a];
  }

  // ----- a delegate at work

  /** An event that is delivered at the given cost; an agent that is asked has nothing to say. */
  function Quietly(kind: Kind, source: Source, cause: Option<int>, cost: real): Input {
    Deliver(Event(0, source, kind, cause, None, false), Env(cost, false, BadResponse, false, false))
  }

  /** A cost below the budget, so that the budget check never stops a step. */
  predicate Affordable(c: Ctl, cost: real) {
    c.maxBudget.Some? ==> cost < c.maxBudget.value
  }

  /** Running, waiting for nothing, and with a positive extension for every user message. */
  predicate AtWork(c: Ctl, cost: real) {
    && c.agentState == Running && c.pending.None? && c.delegate.None? && c.traffic == Normal && !c.headless
    && c.initialMax >= 1 && Affordable(c, cost)
  }

  lemma {:induction false} HandsOver(s: Sys, cost: real)
    requires s.c.delegate.None? && !s.c.headless && s.c.maxIterations >= 1 && Affordable(s.c, cost)
    ensures var t := Next(s, Quietly(DelegateAction(Some("t")), Agent, None, cost));
      && t.c.delegate.Some? && AtWork(t.c.delegate.value, cost)
      && t.c == s.c.(delegate := t.c.delegate, history := t.c.history) && t.w.resumes == s.w.resumes
  {
  }

  lemma {:induction false} MessageExtends(s: Sys, cost: real)
    requires AtWork(s.c, cost)
    ensures var input := Quietly(Message("go on", false), User, None, cost);
      var t := Handle(s, input.e, input.env);
      && t.c.pending.Some? && t.c.pending.value.id == |s.w.stream| && t.w.resumes == s.w.resumes
      && t.c == s.c.(history := t.c.history, pending := t.c.pending, maxIterations := s.c.iteration + s.c.initialMax)
  {
  }

  lemma {:induction false} AnswerSteps(s: Sys, cost: real)
    requires s.c.pending.Some? && AtWork(s.c.(pending := None), cost) && s.c.iteration < s.c.maxIterations
    ensures var input := Quietly(OtherObservation, Environment, Some(s.c.pending.value.id), cost);
      var t := Handle(s, input.e, input.env);
      && t.c == s.c.(history := t.c.history, pending := None, iteration := s.c.iteration + 1) && t.w.resumes == s.w.resumes
  {
    var input := Quietly(OtherObservation, Environment, Some(s.c.pending.value.id), cost);
    var t := Dispatch(Record(s, input.e), input.e, input.env);
    assert t.c == s.c.(history := t.c.history, pending := None) && t.w == s.w;
    assert Step(t, input.env) == Ask(t, input.env);
  }

  /** A user message to the delegate and the answer to its recall: the delegate counts one more iteration. */
  lemma {:induction false} DelegateCountsOne(s: Sys, cost: real) returns (inputs: seq<Input>)
    requires s.c.delegate.Some? && AtWork(s.c.delegate.value, cost)
    ensures var t := Run(s, inputs);
      && t.c.delegate.Some? && AtWork(t.c.delegate.value, cost)
      && t.c == s.c.(delegate := t.c.delegate) && t.w.resumes == s.w.resumes
      && t.c.delegate.value.iteration == s.c.delegate.value.iteration + 1
  {
    hide Handle;
    var message := Quietly(Message("go on", false), User, None, cost);
    MessageExtends(Sys(s.c.delegate.value, s.w), cost);
    var t := Next(s, message);
    var answer := Quietly(OtherObservation, Environment, Some(t.c.delegate.value.pending.value.id), cost);
    AnswerSteps(Sys(t.c.delegate.value, t.w), cost);
    inputs := [message, answer];
    RunTwo(s, message, answer);
  }

  /** As often as one likes, while the parent's limit stays. */
  lemma {:induction false} DelegateCounts(s: Sys, cost: real, k: nat) returns (inputs: seq<Input>)
    requires s.c.delegate.Some? && AtWork(s.c.delegate.value, cost)
    ensures var t := Run(s, inputs);
      && t.c.delegate.Some? && AtWork(t.c.delegate.value, cost)
      && t.c == s.c.(delegate := t.c.delegate) && t.w.resumes == s.w.resumes
      && t.c.delegate.value.iteration == s.c.delegate.value.iteration + k
    decreases k
  {
    hide Run, Next;
    if k == 0 {
      RunNone(s);
      return [];
    }
    var first := DelegateCountsOne(s, cost);
    var rest := DelegateCounts(Run(s, first), cost, k - 1);
    RunAppend(s, first, rest);
    inputs := first + rest;
  }

  lemma {:induction false} RunNone(s: Sys)
    ensures Run(s, []) == s
  {
  }

  lemma {:induction false} DelegateFinishes(s: Sys, cost: real)
    requires s.c.delegate.Some? && AtWork(s.c.delegate.value, cost)
    ensures var finish := Quietly(Finish, Agent, None, cost);
      var t := Next(Next(s, finish), finish);
      t.c == s.c.(iteration := s.c.delegate.value.iteration, delegate := None) && t.w.resumes == s.w.resumes
  {
    var finish := Quietly(Finish, Agent, None, cost);
    var t := Next(s, finish);
    assert t.c.delegate.value.agentState == Finished;
    StoppingResumesNothing(Sys(t.c.delegate.value, t.w), cost);
  }

  lemma {:induction false} StoppingResumesNothing(s: Sys, cost: real)
    ensures SetState(s, Stopped, cost).w.resumes == s.w.resumes
  {
  }

  /** With a delegate at work the parent can always be taken above its own limit. */
  lemma {:induction false} OverrunsFrom(s: Sys, cost: real) returns (inputs: seq<Input>)
    requires s.c.delegate.Some? && AtWork(s.c.delegate.value, cost)
    ensures !KeepsOwnLimit(Run(s, inputs))
  {
    hide Run, Next;
    var missing := s.c.maxIterations + s.w.resumes + 1 - s.c.delegate.value.iteration;
    var counts := DelegateCounts(s, cost, if missing > 0 then missing else 0);
    var finish := Quietly(Finish, Agent, None, cost);
    var t := Run(s, counts);
    DelegateFinishes(t, cost);
    RunTwo(t, finish, finish);
    RunAppend(s, counts, [finish, finish]);
    inputs := counts + [finish, finish];
  }

  // ----- a parent whose limit is zero

  /** Running and waiting for nothing, with no extension for user messages. */
  predicate Unextended(c: Ctl, cost: real) {
    && c.agentState == Running && c.pending.None? && c.delegate.None? && c.traffic == Normal && !c.headless
    && c.initialMax == 0 && Affordable(c, cost)
  }

  /** Below the limit one observation makes it count. */
  lemma {:induction false} ClimbFreely(s: Sys, cost: real)
    requires Unextended(s.c, cost) && s.c.iteration < s.c.maxIterations
    ensures var t := Next(s, Quietly(OtherObservation, Environment, None, cost));
      Unextended(t.c, cost) && t.c.iteration == s.c.iteration + 1
  {
    var input := Quietly(OtherObservation, Environment, None, cost);
    var t := Record(s, input.e);
    assert Dispatch(t, input.e, input.env) == t;
    assert Step(t, input.env) == Ask(t, input.env);
  }

  /** At the limit it is throttled, paused, resumed, and then counts. */
  lemma {:induction false} ClimbByResuming(s: Sys, cost: real)
    requires Unextended(s.c, cost) && s.c.iteration >= s.c.maxIterations
    ensures var look := Quietly(OtherObservation, Environment, None, cost);
      var t := Next(Next(Next(Next(s, look), Command(Paused, cost)), Command(Running, cost)), look);
      Unextended(t.c, cost) && t.c.iteration == s.c.iteration + 1
  {
    var look := Quietly(OtherObservation, Environment, None, cost);
    IsThrottled(s, cost);
    var throttled := Next(s, look);
    IsLifted(throttled, cost);
    IsCounted(Next(Next(throttled, Command(Paused, cost)), Command(Running, cost)), cost);
  }

  lemma {:induction false} IsThrottled(s: Sys, cost: real)
    requires Unextended(s.c, cost) && s.c.iteration >= s.c.maxIterations
    ensures var t := Next(s, Quietly(OtherObservation, Environment, None, cost));
      t.c == s.c.(history := t.c.history, agentState := Error, traffic := Throttling)
  {
    var input := Quietly(OtherObservation, Environment, None, cost);
    var t := Record(s, input.e);
    assert Dispatch(t, input.e, input.env) == t;
    assert CheckIterations(t, cost) == HandleTraffic(t, cost);
  }

  lemma {:induction false} IsLifted(s: Sys, cost: real)
    requires s.c.agentState == Error && s.c.traffic == Throttling && Affordable(s.c, cost) && s.c.initialMax == 0
    ensures var t := Next(Next(s, Command(Paused, cost)), Command(Running, cost));
      t.c == s.c.(agentState := Running, traffic := Lifted)
  {
    var t := Next(s, Command(Paused, cost));
    assert t.c == s.c.(agentState := Paused);
    assert Enter(t, Running, cost) == Resume(t, cost);
  }

  lemma {:induction false} IsCounted(s: Sys, cost: real)
    requires Unextended(s.c.(traffic := Normal), cost) && s.c.traffic == Lifted && s.c.iteration >= s.c.maxIterations
    ensures var t := Next(s, Quietly(OtherObservation, Environment, None, cost));
      Unextended(t.c, cost) && t.c.iteration == s.c.iteration + 1
  {
    var input := Quietly(OtherObservation, Environment, None, cost);
    var t := Record(s, input.e);
    assert Dispatch(t, input.e, input.env) == t;
    assert Step(t, input.env) == Ask(t.(c := t.c.(traffic := Normal)), input.env);
  }

  lemma {:induction false} ClimbOne(s: Sys, cost: real) returns (inputs: seq<Input>)
    requires Unextended(s.c, cost)
    ensures Unextended(Run(s, inputs).c, cost) && Run(s, inputs).c.iteration == s.c.iteration + 1
  {
    hide Next;
    var look := Quietly(OtherObservation, Environment, None, cost);
    if s.c.iteration < s.c.maxIterations {
      ClimbFreely(s, cost);
      RunOne(s, look);
      inputs := [look];
    } else {
      ClimbByResuming(s, cost);
      var pause, resume := Command(Paused, cost), Command(Running, cost);
      RunTwo(s, look, pause);
      RunTwo(Run(s, [look, pause]), resume, look);
      RunAppend(s, [look, pause], [resume, look]);
      inputs := [look, pause] + [resume, look];
    }
  }

  lemma {:induction false} Climb(s: Sys, cost: real, k: nat) returns (inputs: seq<Input>)
    requires Unextended(s.c, cost)
    ensures Unextended(Run(s, inputs).c, cost) && Run(s, inputs).c.iteration == s.c.iteration + k
    decreases k
  {
    hide Run;
    if k == 0 {
      RunNone(s);
      return [];
    }
    var first := ClimbOne(s, cost);
    var rest := Climb(Run(s, first), cost, k - 1);
    RunAppend(s, first, rest);
    inputs := first + rest;
  }

  /** The user message then sets the limit to the count, which is now positive. */
  lemma {:induction false} LimitBecomesCount(s: Sys, cost: real)
    requires Unextended(s.c, cost)
    ensures var t := Next(s, Quietly(Message("go on", false), User, None, cost));
      t.c.delegate.None? && !t.c.headless && t.c.maxIterations == s.c.iteration && Affordable(t.c, cost)
  {
  }

  lemma {:induction false} ReachPositiveLimit(s: Sys, cost: real) returns (inputs: seq<Input>)
    requires Fresh(s) && !s.c.headless && s.c.initialMax == 0 && Affordable(s.c, cost)
    ensures var t := Run(s, inputs);
      t.c.delegate.None? && !t.c.headless && t.c.maxIterations >= 1 && Affordable(t.c, cost)
  {
    hide Run;
    var start := Command(Running, cost);
    RunOne(s, start);
    var t := Run(s, [start]);
    var climb := Climb(t, cost, if t.c.iteration < 1 then 1 - t.c.iteration else 0);
    RunAppend(s, [start], climb);
    var message := Quietly(Message("go on", false), User, None, cost);
    LimitBecomesCount(Run(t, climb), cost);
    RunOne(Run(t, climb), message);
    RunAppend(s, [start] + climb, [message]);
    inputs := [start] + climb + [message];
  }

  // ----- the exact condition

  /** A run that ends above the parent's own limit, for every controller that is not headless. */
  lemma {:induction false} DelegateOverruns(s: Sys) returns (inputs: seq<Input>)
    requires Fresh(s) && !s.c.headless && (s.c.maxIterations >= 1 || s.c.initialMax == s.c.maxIterations)
    ensures !KeepsOwnLimit(Run(s, inputs))
  {
    hide Run, Next;
    var cost := if s.c.maxBudget.Some? then s.c.maxBudget.value - 1.0 else 0.0;
    if s.c.maxIterations < 0 {
      inputs := [Quietly(Message("go on", false), User, None, cost)];
      RunOne(s, inputs[0]);
      NegativeExtension(s, cost);
    } else {
      var before := [];
      RunNone(s);
      if s.c.maxIterations == 0 { before := ReachPositiveLimit(s, cost); }
      var t := Run(s, before);
      var delegate := Quietly(DelegateAction(Some("t")), Agent, None, cost);
      HandsOver(t, cost);
      RunOne(t, delegate);
      RunAppend(s, before, [delegate]);
      var after := OverrunsFrom(Next(t, delegate), cost);
      RunAppend(s, before + [delegate], after);
      inputs := before + [delegate] + after;
    }
  }

  lemma {:induction false} NegativeExtension(s: Sys, cost: real)
    requires Fresh(s) && !s.c.headless && s.c.initialMax < 0
    ensures !KeepsOwnLimit(Next(s, Quietly(Message("go on", false), User, None, cost)))
  {
  }

  /** A new controller keeps to its own current limit in every run exactly when it is headless. The limit it
      was constructed with is also the one that it extends by; where a restored limit is positive the two may differ. */
  lemma {:induction false} OwnLimitIffHeadless(s: Sys)
    requires Fresh(s) && (s.c.maxIterations >= 1 || s.c.initialMax == s.c.maxIterations)
    ensures (forall inputs :: KeepsOwnLimit(Run(s, inputs))) <==> s.c.headless
  {
    if s.c.headless {
      forall inputs ensures KeepsOwnLimit(Run(s, inputs)) {
        HeadlessOverrun(s, inputs);
      }
    } else {
      var inputs := DelegateOverruns(s);
    }
  }
}
