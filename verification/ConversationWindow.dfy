/** Cutting a history roughly in half when the context window is exceeded. */
module ConversationWindow {
  import opened Sequences
  import opened Events

  // ----- the essential events

  /** First position from `from` on that satisfies p, or the length if there is none. */
  function Find(p: Event -> bool, history: seq<Event>, from: nat): (i: nat)
    requires from <= |history|
    ensures from <= i <= |history|
    ensures i < |history| ==> p(history[i])
    ensures forall j :: from <= j < i ==> !p(history[j])
    decreases |history| - from
  {
    if from == |history| || p(history[from]) then from else Find(p, history, from + 1)
  }

  function IsSystem(): Event -> bool { (e: Event) => e.kind.SystemMessage? }

  function IsFromUser(): Event -> bool { (e: Event) => IsUserMessage(e) }

  function RecallsFor(content: string): Event -> bool { (e: Event) => e.kind.Recall? && e.kind.query == content }

  function AnswersTo(id: int): Event -> bool { (e: Event) => IsObservation(e) && e.cause == Some(id) }

  /** The positions of the recall for the first user message and of its observation, if found. */
  function RecallPositions(history: seq<Event>, user: nat): (r: seq<nat>)
    requires user < |history| && history[user].kind.Message?
    ensures |r| <= 2 && (forall i :: 0 <= i < |r| ==> user < r[i] < |history|)
    ensures |r| == 2 ==> r[0] < r[1]
  {
    var recall := Find(RecallsFor(history[user].kind.content), history, user + 1);
    if recall == |history| then []
    else
      var answer := Find(AnswersTo(history[recall].id), history, recall + 1);
      if answer == |history| then [recall] else [recall, answer]
  }

  function At(history: seq<Event>, positions: seq<nat>): (r: seq<Event>)
    requires forall i :: 0 <= i < |positions| ==> positions[i] < |history|
    ensures |r| == |positions| && forall i :: 0 <= i < |r| ==> r[i] == history[positions[i]]
  {
    seq(|positions|, i requires 0 <= i < |positions| => history[positions[i]])
  }

  /** System message, first user message, its recall and the recall's observation, as far as they exist.
      The first user message comes from the stream when the history no longer has one. */
  function Essentials(history: seq<Event>, firstUser: Event): seq<Event> {
    var system := Find(IsSystem(), history, 0);
    var user := Find(IsFromUser(), history, 0);
    (if system < |history| then [history[system]] else [])
    + if user < |history| then [history[user]] + At(history, RecallPositions(history, user)) else [firstUser]
  }

  // ----- the window

  /** How many observations the recent slice starts with. */
  function Dangling(recent: seq<Event>): (n: nat)
    ensures n <= |recent| && forall i :: 0 <= i < n ==> IsObservation(recent[i])
    ensures n < |recent| ==> !IsObservation(recent[n])
  {
    if recent == [] || !IsObservation(recent[0]) then 0 else 1 + Dangling(recent[1..])
  }

  function Half(n: int): int { n / 2 }

  /** Where the slice of recent events starts. */
  function SliceStart(size: nat, essentials: nat): (s: nat)
    requires size > 0
    ensures s < size
  {
    var recent := if Half(size - essentials) > 1 then Half(size - essentials) else 1;
    if size - recent > 0 then size - recent else 0
  }

  function Window(history: seq<Event>, firstUser: Option<Event>): Result<seq<Event>> {
    if history == [] then Ok([])
    else
      var system := Find(IsSystem(), history, 0);
      if system < |history| && history[system].id != history[0].id then Err(AssertionFailed)
      else if firstUser.None? then Err(NoUserMessage)
      else
        var essentials := Essentials(history, firstUser.value);
        var recent := history[SliceStart(|history|, |essentials|)..];
        Ok(essentials + recent[Dangling(recent)..])
  }

  // ----- the loops

  method FindEvent(p: Event -> bool, history: seq<Event>, from: nat) returns (i: nat)
    requires from <= |history|
    ensures i == Find(p, history, from)
  {
    i := from;
    while i < |history| && !p(history[i])
      invariant from <= i <= |history|
      invariant Find(p, history, i) == Find(p, history, from)
    {
      i := i + 1;
    }
  }

  method CountDangling(recent: seq<Event>) returns (n: nat)
    ensures n == Dangling(recent)
  {
    n := 0;
    while n < |recent| && IsObservation(recent[n])
      invariant n <= |recent| && n + Dangling(recent[n..]) == Dangling(recent)
    {
      assert recent[n..][1..] == recent[n + 1..];
      n := n + 1;
    }
  }

  method FindEssentials(history: seq<Event>, firstUser: Event) returns (essentials: seq<Event>)
    ensures essentials == Essentials(history, firstUser)
  {
    var system := FindEvent(IsSystem(), history, 0);
    essentials := if system < |history| then [history[system]] else [];
    var user := FindEvent(IsFromUser(), history, 0);
    if user < |history| {
      var recall := FindRecall(history, user);
      essentials := essentials + ([history[user]] + recall);
    } else {
      essentials := essentials + [firstUser];
    }
  }

  method FindRecall(history: seq<Event>, user: nat) returns (found: seq<Event>)
    requires user < |history| && history[user].kind.Message?
    ensures found == At(history, RecallPositions(history, user))
  {
    found := [];
    var recall := FindEvent(RecallsFor(history[user].kind.content), history, user + 1);
    if recall < |history| {
      found := [history[recall]];
      var answer := FindEvent(AnswersTo(history[recall].id), history, recall + 1);
      if answer < |history| { found := found + [history[answer]]; }
    }
  }

  method ApplyConversationWindow(history: seq<Event>, firstUser: Option<Event>) returns (r: Result<seq<Event>>)
    ensures r == Window(history, firstUser)
  {
    if history == [] { return Ok([]); }
    var system := FindEvent(IsSystem(), history, 0);
    if system < |history| && history[system].id != history[0].id { return Err(AssertionFailed); }
    if firstUser.None? { return Err(NoUserMessage); }
    var essentials := FindEssentials(history, firstUser.value);
    var recent := history[SliceStart(|history|, |essentials|)..];
    var dangling := CountDangling(recent);
    r := Ok(essentials + recent[dangling..]);
  }

  // ----- the emitted range

  function NotIn(kept: seq<Event>): Event -> bool { (e: Event) => e.id !in Ids(kept) }

  function Forgotten(history: seq<Event>, kept: seq<Event>): seq<Event> {
    Filter(NotIn(kept), history)
  }

  function MinId(events: seq<Event>): (m: int)
    requires events != []
    ensures m in Ids(events) && forall i :: 0 <= i < |events| ==> m <= events[i].id
  {
    assert events[0] in events;
    if |events| == 1 then events[0].id
    else
      var rest := MinId(events[1..]);
      assert forall i :: 0 < i < |events| ==> events[i] == events[1..][i - 1];
      if events[0].id < rest then events[0].id else rest
  }

  function MaxId(events: seq<Event>): (m: int)
    requires events != []
    ensures m in Ids(events) && forall i :: 0 <= i < |events| ==> events[i].id <= m
  {
    assert events[0] in events;
    if |events| == 1 then events[0].id
    else
      var rest := MaxId(events[1..]);
      assert forall i :: 0 < i < |events| ==> events[i] == events[1..][i - 1];
      if events[0].id > rest then events[0].id else rest
  }

  /** Least and greatest forgotten id, or (0, 0) when nothing is forgotten. */
  function ForgottenRange(history: seq<Event>, kept: seq<Event>): (int, int) {
    var gone := Forgotten(history, kept);
    if gone == [] then (0, 0) else (MinId(gone), MaxId(gone))
  }

  /** What a view drops for a condensation with this range: every event whose id lies in it. */
  function InRange(range: (int, int)): Event -> bool { (e: Event) => range.0 <= e.id <= range.1 }

  function OutOfRange(range: (int, int)): Event -> bool { (e: Event) => !(range.0 <= e.id <= range.1) }

  // ----- what is kept

  /** The positions of the essential events that are in the history. */
  function EssentialPositions(history: seq<Event>): (r: seq<nat>)
    ensures forall i :: 0 <= i < |r| ==> r[i] < |history|
  {
    var system := Find(IsSystem(), history, 0);
    var user := Find(IsFromUser(), history, 0);
    (if system < |history| then [system] else [])
    + if user < |history| then [user] + RecallPositions(history, user) else []
  }

  predicate UserInHistory(history: seq<Event>) {
    Find(IsFromUser(), history, 0) < |history|
  }

  /** Ids are unique in the stream: a first user message that the history no longer has shares no id with it. */
  ghost predicate UserKnown(history: seq<Event>, firstUser: Event) {
    UserInHistory(history) || firstUser.id !in Ids(history)
  }

  lemma {:induction false} EssentialsAt(history: seq<Event>, firstUser: Event)
    ensures var essentials := At(history, EssentialPositions(history));
      Essentials(history, firstUser) == if UserInHistory(history) then essentials else essentials + [firstUser]
  {
    hide Find, RecallPositions, At;
    var system, user := Find(IsSystem(), history, 0), Find(IsFromUser(), history, 0);
    var first := if system < |history| then [system] else [];
    AtFirst(history, first);
    if user < |history| {
      AtTwoParts(history, first, user, RecallPositions(history, user));
    } else {
      assert EssentialPositions(history) == first;
    }
  }

  lemma {:induction false} AtFirst(history: seq<Event>, first: seq<nat>)
    requires |first| <= 1 && (first != [] ==> first[0] < |history|)
    ensures At(history, first) == if first == [] then [] else [history[first[0]]]
  {
  }

  lemma {:induction false} AtTwoParts(history: seq<Event>, first: seq<nat>, user: nat, rest: seq<nat>)
    requires (forall i :: 0 <= i < |first| ==> first[i] < |history|) && user < |history|
    requires forall i :: 0 <= i < |rest| ==> rest[i] < |history|
    ensures forall i :: 0 <= i < |first + ([user] + rest)| ==> (first + ([user] + rest))[i] < |history|
    ensures At(history, first + ([user] + rest)) == At(history, first) + ([history[user]] + At(history, rest))
  {
  }

  /** Position at which the kept recent events start. */
  function KeptFrom(history: seq<Event>, essentials: nat): (s: nat)
    requires history != []
    ensures s <= |history|
  {
    var start := SliceStart(|history|, essentials);
    start + Dangling(history[start..])
  }

  lemma {:induction false} SliceAfter(history: seq<Event>, e: nat)
    requires history != []
    ensures var s := KeptFrom(history, e); var recent := history[SliceStart(|history|, e)..];
      && recent[Dangling(recent)..] == history[s..]
      && (s < |history| ==> !IsObservation(history[s]))
      && (|history| - e >= 2 ==> 2 * (s - e) >= |history| - e)
  {
  }

  lemma {:induction false} IdsUnique(history: seq<Event>, i: nat, j: nat)
    requires Increasing(history) && i < |history| && j < |history|
    ensures history[i].id == history[j].id ==> i == j
    ensures i < j <==> history[i].id < history[j].id
  {
  }

  /** An event is kept exactly when it is essential or at or after the start of the kept recent events. */
  lemma {:induction false} KeptFromWhere(history: seq<Event>, firstUser: Event, i: nat)
    requires Increasing(history) && UserKnown(history, firstUser) && i < |history|
    requires Window(history, Some(firstUser)).Ok?
    ensures history[i].id in Ids(Window(history, Some(firstUser)).value)
      <==> i in EssentialPositions(history) || i >= KeptFrom(history, |Essentials(history, firstUser)|)
  {
    hide Dangling, SliceStart, Essentials, EssentialPositions;
    var essentials, positions := Essentials(history, firstUser), EssentialPositions(history);
    var s := KeptFrom(history, |essentials|);
    SliceAfter(history, |essentials|);
    EssentialsAt(history, firstUser);
    KeptMember(history, positions, essentials, firstUser, s, i);
  }

  lemma {:induction false} KeptMember(history: seq<Event>, positions: seq<nat>, essentials: seq<Event>, firstUser: Event, s: nat, i: nat)
    requires Increasing(history) && UserKnown(history, firstUser) && i < |history| && s <= |history|
    requires forall j :: 0 <= j < |positions| ==> positions[j] < |history|
    requires essentials == if UserInHistory(history) then At(history, positions) else At(history, positions) + [firstUser]
    ensures history[i].id in Ids(essentials + history[s..]) <==> i in positions || i >= s
  {
    hide Increasing, UserInHistory, Find;
    var kept := essentials + history[s..];
    if i in positions {
      var j :| 0 <= j < |positions| && positions[j] == i;
      assert kept[j] == history[i];
    }
    if i >= s { assert kept[|essentials| + i - s] == history[i]; }
    if history[i].id in Ids(kept) {
      var j := PositionOf(kept, history[i].id);
      if j < |positions| {
        IdsUnique(history, i, positions[j]);
      } else if j < |essentials| {
        assert kept[j] == firstUser;
        assert history[i] in history;
      } else {
        IdsUnique(history, i, s + j - |essentials|);
      }
    }
  }

  // ----- which events these are

  /** How many of the latest events are looked at: half of those that are not essential, and at least one. */
  function RecentCount(history: seq<Event>, essentials: nat): (r: int)
    ensures r >= 1 && (history != [] ==> r <= |history|)
  {
    var half := (|history| - essentials) / 2;
    if half > 1 then half else 1
  }

  /** Some event from position `from` up to position i is not an observation. */
  ghost predicate ActionBefore(history: seq<Event>, from: nat, i: nat)
    requires i < |history|
  {
    exists l :: from <= l <= i && !IsObservation(history[l])
  }

  lemma {:induction false} KeptFromIs(history: seq<Event>, e: nat, i: nat)
    requires history != [] && i < |history|
    ensures i >= KeptFrom(history, e) <==>
      i >= |history| - RecentCount(history, e) && ActionBefore(history, |history| - RecentCount(history, e), i)
  {
    var from := |history| - RecentCount(history, e);
    assert SliceStart(|history|, e) == from;
    var recent := history[from..];
    var n := Dangling(recent);
    forall l | from <= l < from + n ensures IsObservation(history[l]) { assert history[l] == recent[l - from]; }
    if from + n < |history| { assert history[from + n] == recent[n]; }
  }

  predicate FirstSystem(history: seq<Event>, i: nat) {
    i < |history| && history[i].kind.SystemMessage? && forall j :: 0 <= j < i ==> !history[j].kind.SystemMessage?
  }

  predicate FirstFromUser(history: seq<Event>, i: nat) {
    && i < |history| && history[i].kind.Message? && history[i].source == User
    && forall j :: 0 <= j < i ==> !(history[j].kind.Message? && history[j].source == User)
  }

  /** The first recall after message u for its content. */
  predicate FirstRecall(history: seq<Event>, u: nat, i: nat) {
    && u < i < |history| && history[u].kind.Message? && history[i].kind == Recall(history[u].kind.content)
    && forall j :: u < j < i ==> history[j].kind != Recall(history[u].kind.content)
  }

  /** The first observation after recall r that it caused. */
  predicate FirstAnswer(history: seq<Event>, r: nat, i: nat) {
    && r < i < |history| && IsObservation(history[i]) && history[i].cause == Some(history[r].id)
    && forall j :: r < j < i ==> !(IsObservation(history[j]) && history[j].cause == Some(history[r].id))
  }

  /** The first system message, the first user message, the first recall after it for its content, and the first
      observation after that which answers the recall. */
  ghost predicate IsEssential(history: seq<Event>, i: nat) {
    || FirstSystem(history, i)
    || FirstFromUser(history, i)
    || (exists u: nat :: FirstFromUser(history, u) && FirstRecall(history, u, i))
    || (exists u: nat, r: nat :: FirstFromUser(history, u) && FirstRecall(history, u, r) && FirstAnswer(history, r, i))
  }

  lemma {:induction false} FoundFirst(history: seq<Event>, i: nat)
    ensures FirstSystem(history, i) <==> i < |history| && i == Find(IsSystem(), history, 0)
    ensures FirstFromUser(history, i) <==> i < |history| && i == Find(IsFromUser(), history, 0)
  {
    var system, user := Find(IsSystem(), history, 0), Find(IsFromUser(), history, 0);
    hide Find;
    if FirstSystem(history, i) && system < |history| { assert history[system].kind.SystemMessage?; }
    if FirstFromUser(history, i) && user < |history| { assert history[user].kind.Message?; }
  }

  lemma {:induction false} FoundRecall(history: seq<Event>, u: nat, i: nat)
    requires u < |history| && history[u].kind.Message?
    ensures FirstRecall(history, u, i) <==> i < |history| && i == Find(RecallsFor(history[u].kind.content), history, u + 1)
  {
    var found := Find(RecallsFor(history[u].kind.content), history, u + 1);
    hide Find;
    if FirstRecall(history, u, i) && found < |history| { assert history[found].kind == Recall(history[u].kind.content); }
  }

  lemma {:induction false} FoundAnswer(history: seq<Event>, r: nat, i: nat)
    requires r < |history|
    ensures FirstAnswer(history, r, i) <==> i < |history| && i == Find(AnswersTo(history[r].id), history, r + 1)
  {
    var found := Find(AnswersTo(history[r].id), history, r + 1);
    hide Find;
    if FirstAnswer(history, r, i) && found < |history| { assert history[found].cause == Some(history[r].id); }
  }

  lemma {:induction false} EssentialWhen(history: seq<Event>, i: nat)
    requires i < |history|
    ensures i in EssentialPositions(history) <==> IsEssential(history, i)
  {
    hide Find, FirstSystem, FirstFromUser, FirstRecall, FirstAnswer;
    forall u: nat ensures FirstFromUser(history, u) <==> u < |history| && u == Find(IsFromUser(), history, 0) { FoundFirst(history, u); }
    FoundFirst(history, i);
    var user := Find(IsFromUser(), history, 0);
    if user < |history| {
      forall r: nat ensures FirstRecall(history, user, r) <==> r < |history| && r == Find(RecallsFor(history[user].kind.content), history, user + 1) {
        FoundRecall(history, user, r);
      }
      var recall := Find(RecallsFor(history[user].kind.content), history, user + 1);
      if recall < |history| { FoundAnswer(history, recall, i); }
      RecallMembers(history, user, i);
      if i in RecallPositions(history, user) {
        assert FirstFromUser(history, user) && FirstRecall(history, user, recall);
        assert i == recall || FirstAnswer(history, recall, i);
      }
      assert IsEssential(history, i) ==> i in EssentialPositions(history) by {
        if u: nat :| FirstFromUser(history, u) && FirstRecall(history, u, i) { assert u == user && i == recall; }
        if u: nat, r: nat :| FirstFromUser(history, u) && FirstRecall(history, u, r) && FirstAnswer(history, r, i) {
          assert u == user && r == recall;
        }
      }
    }
  }

  lemma {:induction false} RecallMembers(history: seq<Event>, user: nat, i: nat)
    requires user < |history| && history[user].kind.Message?
    ensures var recall := Find(RecallsFor(history[user].kind.content), history, user + 1);
      i in RecallPositions(history, user) <==>
        recall < |history| && (i == recall || (i < |history| && i == Find(AnswersTo(history[recall].id), history, recall + 1)))
  {
  }

  /** An event of the history is kept exactly when it is essential, or is one of the latest events and not among
      the observations that these start with. */
  lemma {:induction false} KeptWhen(history: seq<Event>, firstUser: Event, i: nat)
    requires Increasing(history) && UserKnown(history, firstUser) && i < |history|
    requires Window(history, Some(firstUser)).Ok?
    ensures var from := |history| - RecentCount(history, |Essentials(history, firstUser)|);
      var kept := Window(history, Some(firstUser)).value;
      history[i].id in Ids(kept) <==> IsEssential(history, i) || (i >= from && ActionBefore(history, from, i))
  {
    hide Window, KeptFrom, ActionBefore, EssentialPositions, Essentials, RecentCount, IsEssential;
    EssentialWhen(history, i);
    KeptFromWhere(history, firstUser, i);
    KeptFromIs(history, |Essentials(history, firstUser)|, i);
  }

  /** There is a window unless the first system message does not open the history, or there is no user message
      on the stream; an empty history has the empty window. */
  lemma {:induction false} WindowExists(history: seq<Event>, firstUser: Option<Event>)
    ensures history == [] ==> Window(history, firstUser) == Ok([])
    ensures history != [] ==>
      var misplaced := exists i: nat :: FirstSystem(history, i) && history[i].id != history[0].id;
      && (misplaced ==> Window(history, firstUser) == Err(AssertionFailed))
      && (!misplaced && firstUser.None? ==> Window(history, firstUser) == Err(NoUserMessage))
      && (!misplaced && firstUser.Some? ==> Window(history, firstUser).Ok?)
  {
    hide Find, FirstSystem, Essentials;
    FoundFirst(history, Find(IsSystem(), history, 0));
    forall i: nat | FirstSystem(history, i) ensures i < |history| && i == Find(IsSystem(), history, 0) {
      FoundFirst(history, i);
    }
  }

  /** The essentials come first, the recent part after them starts with no observation, and of two or more
      other events at least half (rounded up) are forgotten. */
  lemma {:induction false} WindowShape(history: seq<Event>, firstUser: Event)
    requires history != [] && Increasing(history) && UserKnown(history, firstUser)
    requires Window(history, Some(firstUser)).Ok?
    ensures var essentials, kept := Essentials(history, firstUser), Window(history, Some(firstUser)).value;
      var s := KeptFrom(history, |essentials|);
      && kept == essentials + history[s..]
      && (s < |history| ==> !IsObservation(history[s]))
      && (|history| - |essentials| >= 2 ==> 2 * |Forgotten(history, kept)| >= |history| - |essentials|)
  {
    hide Essentials, EssentialPositions, Dangling, SliceStart, Filter;
    var essentials, kept := Essentials(history, firstUser), Window(history, Some(firstUser)).value;
    var s := KeptFrom(history, |essentials|);
    SliceAfter(history, |essentials|);
    EssentialsAt(history, firstUser);
    var p := NotIn(kept);
    forall i | 0 <= i < s ensures p(history[i]) || i in EssentialPositions(history) {
      KeptFromWhere(history, firstUser, i);
    }
    FilterMissesFew(p, history, EssentialPositions(history), s);
    FilterAppend(p, history[..s], history[s..]);
    assert history == history[..s] + history[s..];
  }

  lemma {:induction false} RecentExact(history: seq<Event>, e: nat)
    requires history != []
    ensures var from := |history| - RecentCount(history, e);
      !IsObservation(history[from]) ==> KeptFrom(history, e) == from
  {
    var from := |history| - RecentCount(history, e);
    assert SliceStart(|history|, e) == from && history[from..][0] == history[from];
  }

  /** When the latest events do not start with an observation, all of them are kept. */
  lemma {:induction false} LatestKept(history: seq<Event>, firstUser: Event)
    requires history != [] && Window(history, Some(firstUser)).Ok?
    ensures var essentials := Essentials(history, firstUser);
      var from := |history| - RecentCount(history, |essentials|);
      !IsObservation(history[from]) ==> Window(history, Some(firstUser)).value == essentials + history[from..]
  {
    hide Essentials, SliceStart, RecentCount, Dangling;
    RecentExact(history, |Essentials(history, firstUser)|);
    SliceAfter(history, |Essentials(history, firstUser)|);
  }

  /** A filter that drops nothing but the marked positions drops no more than there are marks. */
  lemma {:induction false} FilterMissesFew(p: Event -> bool, history: seq<Event>, marks: seq<nat>, n: nat)
    requires n <= |history| && forall i :: 0 <= i < n ==> p(history[i]) || i in marks
    ensures |Filter(p, history[..n])| + |marks| >= n
    decreases n
  {
    if n > 0 {
      FilterPush(p, history, n - 1);
      if p(history[n - 1]) {
        FilterMissesFew(p, history, marks, n - 1);
      } else {
        var m :| 0 <= m < |marks| && marks[m] == n - 1;
        var rest := marks[..m] + marks[m + 1..];
        forall i | 0 <= i < n - 1 && i in marks ensures i in rest {
          var k :| 0 <= k < |marks| && marks[k] == i;
          assert rest[if k < m then k else k - 1] == i;
        }
        FilterMissesFew(p, history, rest, n - 1);
      }
    }
  }

  lemma {:induction false} FilterPush(p: Event -> bool, history: seq<Event>, n: nat)
    requires n < |history|
    ensures Filter(p, history[..n + 1]) == Filter(p, history[..n]) + if p(history[n]) then [history[n]] else []
  {
    assert history[..n + 1] == history[..n] + [history[n]];
    FilterAppend(p, history[..n], [history[n]]);
    assert Filter(p, [history[n]]) == if p(history[n]) then [history[n]] + Filter(p, []) else Filter(p, []);
  }

  // ----- when the emitted range is clear of kept events

  /** Some event before position s is not essential, and hence forgotten. */
  ghost predicate SomethingForgotten(history: seq<Event>, s: nat) {
    exists i :: 0 <= i < s && i !in EssentialPositions(history)
  }

  /** An essential event stands between two others before position s. */
  ghost predicate EssentialBetween(history: seq<Event>, s: nat) {
    exists i, j, k :: 0 <= i < j < k < s
      && i !in EssentialPositions(history) && j in EssentialPositions(history) && k !in EssentialPositions(history)
  }

  /** No kept event stands between two forgotten ones. */
  ghost predicate OneBlock(history: seq<Event>, kept: seq<Event>) {
    forall i, j, k :: 0 <= i < j < k < |history| && history[i].id !in Ids(kept) && history[k].id !in Ids(kept)
      ==> history[j].id !in Ids(kept)
  }

  ghost predicate RangeIsClear(history: seq<Event>, kept: seq<Event>) {
    forall j :: 0 <= j < |history| && history[j].id in Ids(kept) ==> !InRange(ForgottenRange(history, kept))(history[j])
  }

  /** For increasing ids and whatever events are kept, the emitted range is clear of kept events if and
      only if the forgotten events form one block. */
  lemma {:induction false} ClearIsOneBlock(history: seq<Event>, kept: seq<Event>)
    requires Increasing(history) && Forgotten(history, kept) != []
    ensures RangeIsClear(history, kept) <==> OneBlock(history, kept)
  {
    var gone := Forgotten(history, kept);
    var lo := ForgottenPosition(history, kept, MinId(gone));
    var hi := ForgottenPosition(history, kept, MaxId(gone));
    if OneBlock(history, kept) {
      forall j | 0 <= j < |history| && history[j].id in Ids(kept)
        ensures !InRange(ForgottenRange(history, kept))(history[j])
      {
        IdsUnique(history, lo, j);
        IdsUnique(history, j, hi);
      }
    }
    if RangeIsClear(history, kept) {
      forall i, j, k | 0 <= i < j < k < |history| && history[i].id !in Ids(kept) && history[k].id !in Ids(kept)
        ensures history[j].id !in Ids(kept)
      {
        FilterMember(NotIn(kept), history, history[i]);
        FilterMember(NotIn(kept), history, history[k]);
        assert MinId(gone) <= history[i].id && history[k].id <= MaxId(gone);
      }
    }
  }

  lemma {:induction false} ForgottenPosition(history: seq<Event>, kept: seq<Event>, id: int) returns (i: nat)
    requires id in Ids(Forgotten(history, kept))
    ensures i < |history| && history[i].id == id && id !in Ids(kept)
  {
    var gone := Forgotten(history, kept);
    var t := PositionOf(gone, id);
    FilterMember(NotIn(kept), history, gone[t]);
    i :| 0 <= i < |history| && history[i] == gone[t];
  }

  /** When something is forgotten, the emitted range contains no kept event exactly when no essential event
      stands between two others before the kept recent events. */
  lemma {:induction false} RangeClear(history: seq<Event>, firstUser: Event)
    requires history != [] && Increasing(history) && UserKnown(history, firstUser)
    requires Window(history, Some(firstUser)).Ok?
    requires SomethingForgotten(history, KeptFrom(history, |Essentials(history, firstUser)|))
    ensures RangeIsClear(history, Window(history, Some(firstUser)).value)
      <==> !EssentialBetween(history, KeptFrom(history, |Essentials(history, firstUser)|))
  {
    hide Window, Essentials, EssentialPositions, KeptFrom, RangeIsClear, Ids;
    var kept := Window(history, Some(firstUser)).value;
    var s := KeptFrom(history, |Essentials(history, firstUser)|);
    forall i | 0 <= i < |history| ensures history[i].id in Ids(kept) <==> i in EssentialPositions(history) || i >= s {
      KeptFromWhere(history, firstUser, i);
    }
    var i :| 0 <= i < s && i !in EssentialPositions(history);
    ForgottenMember(history, kept, i);
    ClearIsOneBlock(history, kept);
  }

  /** Then a view that drops the range shows exactly the window, if and only if in addition the first user
      message is still in the history and no essential event is among the recent ones, where it is kept twice. */
  lemma {:induction false} RangeMatchesWindow(history: seq<Event>, firstUser: Event)
    requires history != [] && Increasing(history) && UserKnown(history, firstUser)
    requires Window(history, Some(firstUser)).Ok?
    requires SomethingForgotten(history, KeptFrom(history, |Essentials(history, firstUser)|))
    ensures var kept := Window(history, Some(firstUser)).value;
      Filter(OutOfRange(ForgottenRange(history, kept)), history) == kept <==> Undisturbed(history, firstUser)
  {
    hide Window, Filter, ForgottenRange, Undisturbed;
    if Undisturbed(history, firstUser) {
      UndisturbedShown(history, firstUser);
    } else {
      DisturbedNotShown(history, firstUser);
    }
  }

  ghost predicate Undisturbed(history: seq<Event>, firstUser: Event)
    requires history != []
  {
    var s := KeptFrom(history, |Essentials(history, firstUser)|);
    !EssentialBetween(history, s) && UserInHistory(history) && AllBelow(EssentialPositions(history), s)
  }

  lemma {:induction false} UndisturbedShown(history: seq<Event>, firstUser: Event)
    requires history != [] && Increasing(history) && UserKnown(history, firstUser)
    requires Window(history, Some(firstUser)).Ok? && Undisturbed(history, firstUser)
    requires SomethingForgotten(history, KeptFrom(history, |Essentials(history, firstUser)|))
    ensures var kept := Window(history, Some(firstUser)).value;
      Filter(OutOfRange(ForgottenRange(history, kept)), history) == kept
  {
    hide Window, Essentials, EssentialPositions, KeptFrom, UserKnown, UserInHistory, EssentialBetween, AllBelow, Filter, ForgottenRange;
    hide SomethingForgotten, Increasing, Ids, At;
    var kept := Window(history, Some(firstUser)).value;
    var s, positions := KeptFrom(history, |Essentials(history, firstUser)|), EssentialPositions(history);
    WindowShape(history, firstUser);
    EssentialsAt(history, firstUser);
    RangeClear(history, firstUser);
    PositionsIncrease(history, firstUser);
    var p := OutOfRange(ForgottenRange(history, kept));
    forall i | 0 <= i < |history| ensures p(history[i]) <==> i in positions || i >= s {
      KeptFromWhere(history, firstUser, i);
      if history[i].id !in Ids(kept) { ForgottenInRange(history, kept, i); }
    }
    FilterPositions(p, history, positions, s);
  }

  lemma {:induction false} ForgottenInRange(history: seq<Event>, kept: seq<Event>, i: nat)
    requires i < |history| && history[i].id !in Ids(kept)
    ensures InRange(ForgottenRange(history, kept))(history[i])
  {
    ForgottenMember(history, kept, i);
  }

  lemma {:induction false} DisturbedNotShown(history: seq<Event>, firstUser: Event)
    requires history != [] && Increasing(history) && UserKnown(history, firstUser)
    requires Window(history, Some(firstUser)).Ok? && !Undisturbed(history, firstUser)
    requires SomethingForgotten(history, KeptFrom(history, |Essentials(history, firstUser)|))
    ensures var kept := Window(history, Some(firstUser)).value;
      Filter(OutOfRange(ForgottenRange(history, kept)), history) != kept
  {
    hide Window, Essentials, EssentialPositions, KeptFrom, UserInHistory, EssentialBetween, AllBelow, Filter, ForgottenRange;
    hide SomethingForgotten, Increasing, Ids, At, RangeIsClear;
    var kept := Window(history, Some(firstUser)).value;
    var s, positions := KeptFrom(history, |Essentials(history, firstUser)|), EssentialPositions(history);
    WindowShape(history, firstUser);
    EssentialsAt(history, firstUser);
    var p := OutOfRange(ForgottenRange(history, kept));
    if !UserInHistory(history) {
      assert kept[|positions|] == firstUser;
      UserNotShown(p, history, firstUser, kept);
    } else if !AllBelow(positions, s) {
      KeptTwice(p, history, positions, s, kept);
    } else {
      RangeClear(history, firstUser);
      SwallowsKept(history, kept);
    }
  }

  predicate AllBelow(positions: seq<nat>, s: nat) {
    forall j :: 0 <= j < |positions| ==> positions[j] < s
  }

  lemma {:induction false} UserNotShown(p: Event -> bool, history: seq<Event>, firstUser: Event, kept: seq<Event>)
    requires firstUser in kept && firstUser.id !in Ids(history)
    ensures Filter(p, history) != kept
  {
    FilterMember(p, history, firstUser);
    MemberHasId(history, firstUser);
  }

  lemma {:induction false} MemberHasId(history: seq<Event>, e: Event)
    ensures e in history ==> e.id in Ids(history)
  {
  }

  lemma {:induction false} KeptTwice(p: Event -> bool, history: seq<Event>, positions: seq<nat>, s: nat, kept: seq<Event>)
    requires Increasing(history) && s <= |history| && !AllBelow(positions, s)
    requires forall j :: 0 <= j < |positions| ==> positions[j] < |history|
    requires kept == At(history, positions) + history[s..]
    ensures Filter(p, history) != kept
  {
    var j :| 0 <= j < |positions| && positions[j] >= s;
    var again := |positions| + positions[j] - s;
    assert kept[j] == history[positions[j]] && kept[again] == history[positions[j]];
    FilterIncreases(p, history);
  }

  lemma {:induction false} FilterIncreases(p: Event -> bool, history: seq<Event>)
    requires Increasing(history)
    ensures Increasing(Filter(p, history))
  {
    if history != [] {
      FilterIncreases(p, history[1..]);
      var rest := Filter(p, history[1..]);
      forall k | 0 <= k < |rest| ensures history[0].id < rest[k].id {
        FilterMember(p, history[1..], rest[k]);
      }
    }
  }

  lemma {:induction false} SwallowsKept(history: seq<Event>, kept: seq<Event>)
    requires Increasing(history) && !RangeIsClear(history, kept)
    ensures Filter(OutOfRange(ForgottenRange(history, kept)), history) != kept
  {
    hide ForgottenRange, Filter;
    var range := ForgottenRange(history, kept);
    var j :| 0 <= j < |history| && history[j].id in Ids(kept) && InRange(range)(history[j]);
    var k := PositionOf(kept, history[j].id);
    FilterMember(OutOfRange(range), history, kept[k]);
  }

  /** A system message opens the history, so the essential positions come in order. */
  lemma {:induction false} PositionsIncrease(history: seq<Event>, firstUser: Event)
    requires history != [] && Increasing(history) && Window(history, Some(firstUser)).Ok?
    ensures var r := EssentialPositions(history); forall i, j :: 0 <= i < j < |r| ==> r[i] < r[j]
  {
    hide Increasing, RecallPositions, Window, Find;
    SystemFirst(history, firstUser);
  }

  lemma {:induction false} SystemFirst(history: seq<Event>, firstUser: Event)
    requires history != [] && Increasing(history) && Window(history, Some(firstUser)).Ok?
    ensures var system := Find(IsSystem(), history, 0); system < |history| ==> system == 0
  {
    hide Increasing, Essentials, Find;
    var system := Find(IsSystem(), history, 0);
    if system < |history| { IdsUnique(history, system, 0); }
  }

  lemma {:induction false} FilterPositions(p: Event -> bool, history: seq<Event>, positions: seq<nat>, s: nat)
    requires s <= |history| && AllBelow(positions, s) && (forall i, j :: 0 <= i < j < |positions| ==> positions[i] < positions[j])
    requires forall i :: 0 <= i < |history| ==> (p(history[i]) <==> i in positions || i >= s)
    ensures Filter(p, history) == At(history, positions) + history[s..]
  {
    FilterAppend(p, history[..s], history[s..]);
    assert history == history[..s] + history[s..];
    FilterAll(p, history[s..]);
    FilterAt(p, history, positions, s);
  }

  lemma {:induction false} FilterAt(p: Event -> bool, history: seq<Event>, positions: seq<nat>, n: nat)
    requires n <= |history| && AllBelow(positions, n) && (forall i, j :: 0 <= i < j < |positions| ==> positions[i] < positions[j])
    requires forall i :: 0 <= i < n ==> (p(history[i]) <==> i in positions)
    ensures Filter(p, history[..n]) == At(history, positions)
    decreases n
  {
    hide Filter;
    if n == 0 {
      assert positions == [];
      FilterNone(p);
    } else {
      FilterPush(p, history, n - 1);
      if n - 1 in positions {
        var last := |positions| - 1;
        assert positions[last] == n - 1;
        var front := positions[..last];
        forall i | 0 <= i < n - 1 && i in positions ensures i in front {
          var k :| 0 <= k < |positions| && positions[k] == i;
          assert front[k] == i;
        }
        FilterAt(p, history, front, n - 1);
        assert At(history, positions) == At(history, front) + [history[n - 1]];
      } else {
        forall j | 0 <= j < |positions| ensures positions[j] < n - 1 {
          assert positions[j] in positions;
        }
        FilterAt(p, history, positions, n - 1);
      }
    }
  }

  lemma {:induction false} FilterNone(p: Event -> bool)
    ensures Filter(p, []) == []
  {
  }

  /** In particular both hold when the essential events are the first events of the history. */
  lemma {:induction false} EssentialsFirst(history: seq<Event>, firstUser: Event)
    requires history != [] && Increasing(history) && UserKnown(history, firstUser)
    requires Essentials(history, firstUser) <= history
    ensures UserInHistory(history)
    ensures var s := KeptFrom(history, |Essentials(history, firstUser)|);
      !EssentialBetween(history, s) && (SomethingForgotten(history, s) ==> AllBelow(EssentialPositions(history), s))
  {
    hide Essentials, EssentialPositions, KeptFrom, UserInHistory, Find;
    var essentials, positions := Essentials(history, firstUser), EssentialPositions(history);
    EssentialsAt(history, firstUser);
    MemberHasId(history, firstUser);
    assert firstUser in essentials ==> firstUser in history;
    forall i | 0 <= i < |positions| ensures positions[i] == i {
      assert essentials[i] == history[i];
      IdsUnique(history, positions[i], i);
    }
    forall i | 0 <= i < |history| ensures i in positions <==> i < |positions| {
      if i < |positions| { assert positions[i] == i; }
    }
  }

  /** A history whose recall is answered late: the observation with id 3 is essential, yet the events
      with ids 2 and 4 on either side of it are forgotten. */
  function LateRecall(): (r: seq<Event>)
    ensures |r| == 6 && Increasing(r)
  {
    [Event(0, User, Message("q", false), None, None, false),
     Event(1, User, Recall("q"), None, None, false),
     Event(2, Agent, OtherAction(true), None, None, false),
     Event(3, Agent, OtherObservation, Some(1), None, false),
     Event(4, Agent, OtherAction(true), None, None, false),
     Event(5, Agent, OtherAction(true), None, None, false)]
  }

  lemma {:induction false} LateRecallEssentials()
    ensures var h := LateRecall();
      Find(IsSystem(), h, 0) == 6 && Essentials(h, h[0]) == [h[0], h[1], h[3]]
  {
    var h := LateRecall();
    assert Find(IsSystem(), h, 0) == 6;
    assert Find(IsFromUser(), h, 0) == 0;
    assert RecallPositions(h, 0) == [1, 3] by {
      assert Find(RecallsFor("q"), h, 1) == 1;
      assert Find(AnswersTo(1), h, 2) == 3;
    }
  }

  lemma {:induction false} LateRecallWindow()
    ensures var h := LateRecall(); Window(h, Some(h[0])) == Ok([h[0], h[1], h[3], h[5]])
  {
    var h := LateRecall();
    LateRecallEssentials();
    assert SliceStart(6, 3) == 5;
    assert h[5..] == [h[5]] && Dangling(h[5..]) == 0;
    assert h[5..][0..] == [h[5]];
    assert [h[0], h[1], h[3]] + [h[5]] == [h[0], h[1], h[3], h[5]];
  }

  /** Unless the essentials come first, the range can swallow an essential event. */
  lemma {:induction false} RangeSwallowsEssential()
    ensures var h := LateRecall(); Window(h, Some(h[0])).Ok?
    ensures var h := LateRecall(); var kept := Window(h, Some(h[0])).value;
      h[3] in kept && InRange(ForgottenRange(h, kept))(h[3])
  {
    var h := LateRecall();
    LateRecallWindow();
    LateRecallRange([h[0], h[1], h[3], h[5]]);
  }

  lemma {:induction false} LateRecallRange(kept: seq<Event>)
    requires var h := LateRecall(); kept == [h[0], h[1], h[3], h[5]]
    ensures InRange(ForgottenRange(LateRecall(), kept))(LateRecall()[3])
  {
    var h := LateRecall();
    assert h[2].id == 2 && h[3].id == 3 && h[4].id == 4;
    assert forall e :: e in kept ==> e.id != 2 && e.id != 4;
    ForgottenMember(h, kept, 2);
    ForgottenMember(h, kept, 4);
  }

  lemma {:induction false} ForgottenMember(history: seq<Event>, kept: seq<Event>, i: nat)
    requires i < |history| && history[i].id !in Ids(kept)
    ensures Forgotten(history, kept) != []
    ensures MinId(Forgotten(history, kept)) <= history[i].id <= MaxId(Forgotten(history, kept))
  {
    FilterMember(NotIn(kept), history, history[i]);
  }
}
