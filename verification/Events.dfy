/** Events of the agent controller: what the controller can tell apart about actions and observations. */
module Events {
  import opened Sequences

  datatype AgentState =
    | Loading | Running | AwaitingUserInput | Paused | Stopped | Finished | Rejected | Error
    | AwaitingUserConfirmation | UserConfirmed | UserRejected | RateLimited

  datatype Source = Agent | User | Environment

  datatype Confirmation = Confirmed | Refused | Awaiting

  datatype Kind =
    // actions
    | Message(content: string, waitForResponse: bool)
    | SystemMessage
    | Recall(query: string)
    | DelegateAction(task: Option<string>)
    | Finish
    | Reject
    | ChangeState(target: AgentState)
    | Condensation(forgottenStart: int, forgottenEnd: int)
    | RunCommand(confirmation: Confirmation)
    | OtherAction(runs: bool)
    | NullAction
    // observations
    | ErrorObservation
    | StateChanged(state: AgentState)
    | DelegateObservation
    | NullObservation
    | OtherObservation

  /** Tool-call metadata is opaque: only its presence and equality matter. */
  type Metadata = nat

  datatype Event = Event(
    id: int,
    source: Source,
    kind: Kind,
    cause: Option<int>,
    metadata: Option<Metadata>,
    hidden: bool)

  predicate IsObservation(e: Event) {
    match e.kind
    case ErrorObservation | StateChanged(_) | DelegateObservation | NullObservation | OtherObservation => true
    case _ => false
  }

  predicate IsUserMessage(e: Event) {
    e.kind.Message? && e.source == User
  }

  /** Event types that never enter a history. */
  predicate FilteredOut(e: Event) {
    e.kind.NullAction? || e.kind.NullObservation? || e.kind.ChangeState? || e.kind.StateChanged?
  }

  predicate Increasing(events: seq<Event>) {
    forall i, j :: 0 <= i < j < |events| ==> events[i].id < events[j].id
  }

  function Ids(events: seq<Event>): set<int> {
    set e | e in events :: e.id
  }

  lemma {:induction false} PositionOf(events: seq<Event>, id: int) returns (i: nat)
    requires id in Ids(events)
    ensures i < |events| && events[i].id == id
  {
    var e :| e in events && e.id == id;
    i :| 0 <= i < |events| && events[i] == e;
  }

  function Filter(p: Event -> bool, events: seq<Event>): seq<Event> {
    if events == [] then []
    else if p(events[0]) then [events[0]] + Filter(p, events[1..])
    else Filter(p, events[1..])
  }

  lemma {:induction false} FilterAppend(p: Event -> bool, a: seq<Event>, b: seq<Event>)
    ensures Filter(p, a + b) == Filter(p, a) + Filter(p, b)
  {
    if a == [] {
      assert a + b == b;
    } else {
      assert (a + b)[1..] == a[1..] + b;
      FilterAppend(p, a[1..], b);
    }
  }

  lemma {:induction false} FilterAll(p: Event -> bool, s: seq<Event>)
    ensures (forall i :: 0 <= i < |s| ==> p(s[i])) ==> Filter(p, s) == s
    ensures (forall i :: 0 <= i < |s| ==> !p(s[i])) ==> Filter(p, s) == []
  {
    if s != [] { FilterAll(p, s[1..]); }
  }

  lemma {:induction false} FilterMember(p: Event -> bool, s: seq<Event>, e: Event)
    ensures e in Filter(p, s) <==> e in s && p(e)
  {
    if s != [] { FilterMember(p, s[1..], e); }
  }

  /** Filtering depends on the predicate only at the filtered events. */
  lemma {:induction false} FilterAgree(p: Event -> bool, q: Event -> bool, s: seq<Event>)
    requires forall i :: 0 <= i < |s| ==> p(s[i]) == q(s[i])
    ensures Filter(p, s) == Filter(q, s)
  {
    if s != [] { FilterAgree(p, q, s[1..]); }
  }

  /** Filtering a stretch of which everything, or nothing, passes. */
  lemma {:induction false} FilterStretch(p: Event -> bool, s: seq<Event>, a: nat, b: nat)
    requires a <= b <= |s|
    ensures (forall i :: a <= i < b ==> p(s[i])) ==> Filter(p, s[a..b]) == s[a..b]
    ensures (forall i :: a <= i < b ==> !p(s[i])) ==> Filter(p, s[a..b]) == []
  {
    FilterAll(p, s[a..b]);
  }
}
