/** Rebuilding a history from the event stream: what happened inside a delegate is left out. */
module DelegateHistory {
  import opened Sequences
  import opened Events
  import opened Sorting

  datatype Span = Span(start: int, end: int)

  datatype Matching = Matching(open: seq<int>, spans: seq<Span>)

  // ----- pairing delegate actions with delegate observations

  function MatchOne(m: Matching, e: Event): Matching {
    if e.kind.DelegateAction? then m.(open := m.open + [e.id])
    else if e.kind.DelegateObservation? && m.open != [] then
      Matching(m.open[..|m.open| - 1], m.spans + [Span(m.open[|m.open| - 1], e.id)])
    else m
  }

  /** The unmatched action ids and the spans found among the first n events. */
  function Match(events: seq<Event>, n: nat): Matching
    requires n <= |events|
  {
    if n == 0 then Matching([], []) else MatchOne(Match(events, n - 1), events[n - 1])
  }

  /** The delegate spans of a history. */
  function SpansOf(events: seq<Event>): seq<Span> {
    Match(events, |events|).spans
  }

  predicate Apart(a: Span, b: Span) {
    a.end < b.start || b.end < a.start
  }

  /** a lies strictly inside b. */
  predicate Inside(a: Span, b: Span) {
    b.start < a.start && a.end < b.end
  }

  ghost predicate LaminarSpans(spans: seq<Span>) {
    && (forall i :: 0 <= i < |spans| ==> spans[i].start < spans[i].end)
    && (forall i, j :: 0 <= i < j < |spans| ==>
          Apart(spans[i], spans[j]) || Inside(spans[i], spans[j]) || Inside(spans[j], spans[i]))
  }

  /** Every open action lies before or after each span, and the open actions are in order. */
  ghost predicate Nesting(m: Matching, last: int) {
    && LaminarSpans(m.spans)
    && (forall i, j :: 0 <= i < j < |m.open| ==> m.open[i] < m.open[j])
    && (forall i :: 0 <= i < |m.open| ==> m.open[i] <= last)
    && (forall i :: 0 <= i < |m.spans| ==> m.spans[i].end <= last)
    && (forall i, j :: 0 <= i < |m.open| && 0 <= j < |m.spans| ==>
          m.open[i] < m.spans[j].start || m.spans[j].end < m.open[i])
  }

  lemma {:induction false} MatchOneNests(m: Matching, e: Event, last: int)
    requires Nesting(m, last) && last < e.id
    ensures Nesting(MatchOne(m, e), e.id)
  {
    if !e.kind.DelegateAction? && e.kind.DelegateObservation? && m.open != [] {
      var top := |m.open| - 1;
      var spans := MatchOne(m, e).spans;
      forall i, j | 0 <= i < j < |spans|
        ensures Apart(spans[i], spans[j]) || Inside(spans[i], spans[j]) || Inside(spans[j], spans[i])
      {
        if j == |m.spans| { assert m.open[top] < spans[i].start || spans[i].end < m.open[top]; }
      }
    }
  }

  lemma {:induction false} MatchNests(events: seq<Event>, n: nat)
    requires n <= |events| && Increasing(events)
    ensures Nesting(Match(events, n), if n == 0 then 0 else events[n - 1].id)
  {
    if n == 1 {
      assert MatchOne(Match(events, 0), events[0]) == Match(events, 1);
    } else if n > 1 {
      MatchNests(events, n - 1);
      MatchOneNests(Match(events, n - 1), events[n - 1], events[n - 2].id);
    }
  }

  /** Stack matching only ever yields spans that are pairwise apart or nested. */
  lemma {:induction false} SpansAreLaminar(events: seq<Event>)
    requires Increasing(events)
    ensures LaminarSpans(SpansOf(events))
  {
    MatchNests(events, |events|);
  }

  ghost predicate FromEvents(span: Span, events: seq<Event>) {
    && span.start in Ids(events) && span.end in Ids(events)
  }

  lemma {:induction false} MatchFromEvents(events: seq<Event>, n: nat)
    requires n <= |events|
    ensures forall i :: 0 <= i < |Match(events, n).open| ==> Match(events, n).open[i] in Ids(events)
    ensures forall i :: 0 <= i < |Match(events, n).spans| ==> FromEvents(Match(events, n).spans[i], events)
  {
    if n > 0 {
      MatchFromEvents(events, n - 1);
      assert events[n - 1] in events;
    }
  }

  // ----- sorted(delegate_ranges)

  predicate SpanLess(a: Span, b: Span) {
    a.start < b.start || (a.start == b.start && a.end < b.end)
  }

  function EarlierFirst(): (Span, Span) -> bool { (a: Span, b: Span) => SpanLess(a, b) }

  function SortSpans(s: seq<Span>): (r: seq<Span>)
    ensures multiset(r) == multiset(s)
    ensures |r| == |s|
  {
    SortBy(EarlierFirst(), s)
  }

  predicate InOrder(s: seq<Span>) {
    forall i, j :: 0 <= i < j < |s| ==> s[i].start <= s[j].start
  }

  lemma {:induction false} SortInOrder(s: seq<Span>)
    ensures InOrder(SortSpans(s))
  {
    hide SortBy;
    SortOrdered(EarlierFirst(), s);
  }

  // ----- leaving out what happened inside the spans

  /** The first position whose event comes after the given id. */
  function After(events: seq<Event>, id: int, from: nat): (i: nat)
    requires from <= |events|
    ensures from <= i <= |events|
    ensures forall j :: from <= j < i ==> events[j].id <= id
    ensures i < |events| ==> events[i].id > id
    decreases |events| - from
  {
    if from == |events| then from
    else if events[from].id > id then from
    else After(events, id, from + 1)
  }

  function IdBelow(id: int): Event -> bool { (e: Event) => e.id < id }

  function EndOf(span: Span): Event -> bool { (e: Event) => e.id == span.start || e.id == span.end }

  datatype Progress = Progress(kept: seq<Event>, next: nat)

  /** One turn of the loop: events before the span from the current position, its two ends, then on after it. */
  function KeepAround(events: seq<Event>, p: Progress, span: Span): (r: Progress)
    requires p.next <= |events|
    ensures r.next <= |events|
  {
    Progress(
      p.kept
        + Filter(IdBelow(span.start), events[p.next..])
        + Filter(EndOf(span), events),
      After(events, span.end, 0))
  }

  function KeepAroundAll(events: seq<Event>, spans: seq<Span>, n: nat): (p: Progress)
    requires n <= |spans|
    ensures p.next <= |events|
  {
    if n == 0 then Progress([], 0) else KeepAround(events, KeepAroundAll(events, spans, n - 1), spans[n - 1])
  }

  function Rebuilt(events: seq<Event>): seq<Event> {
    var spans := SpansOf(events);
    if spans == [] then events
    else
      var p := KeepAroundAll(events, SortSpans(spans), |spans|);
      p.kept + events[p.next..]
  }

  // ----- what the rebuilt history is

  predicate StrictlyWithin(e: Event, span: Span) {
    span.start < e.id < span.end
  }

  predicate OutsideAll(e: Event, spans: seq<Span>) {
    forall i :: 0 <= i < |spans| ==> !StrictlyWithin(e, spans[i])
  }

  function OutsideOf(spans: seq<Span>): Event -> bool { (e: Event) => OutsideAll(e, spans) }

  /** The events that are not strictly inside any span, in order. */
  function Outside(events: seq<Event>, spans: seq<Span>): seq<Event> {
    Filter(OutsideOf(spans), events)
  }

  ghost predicate NoneNested(spans: seq<Span>) {
    forall i, j :: 0 <= i < |spans| && 0 <= j < |spans| ==> !Inside(spans[i], spans[j])
  }

  /** Sorted spans that are pairwise apart: each ends before the next starts. */
  ghost predicate Consecutive(spans: seq<Span>) {
    && (forall i :: 0 <= i < |spans| ==> spans[i].start < spans[i].end)
    && (forall i, j :: 0 <= i < j < |spans| ==> spans[i].end < spans[j].start)
  }

  /** Filtering an increasing sequence below an id keeps a prefix. */
  lemma {:induction false} FilterBelow(events: seq<Event>, from: nat, id: int)
    requires Increasing(events) && from <= |events|
    ensures Filter(IdBelow(id), events[from..]) == events[from..After(events, id - 1, from)]
  {
    hide Filter, After;
    var i := After(events, id - 1, from);
    assert events[from..] == events[from..i] + events[i..|events|];
    FilterAppend(IdBelow(id), events[from..i], events[i..|events|]);
    FilterStretch(IdBelow(id), events, from, i);
    FilterStretch(IdBelow(id), events, i, |events|);
  }

  /** The two ends of a span, in order. */
  lemma {:induction false} FilterEnds(events: seq<Event>, a: nat, b: nat, span: Span)
    requires Increasing(events) && a < b < |events| && events[a].id == span.start && events[b].id == span.end
    ensures Filter(EndOf(span), events) == [events[a], events[b]]
  {
    FilterEndsFrom(events, a, b, span, 0);
    assert events[0..] == events;
  }

  lemma {:induction false} FilterEndsFrom(events: seq<Event>, a: nat, b: nat, span: Span, i: nat)
    requires Increasing(events) && a < b < |events| && events[a].id == span.start && events[b].id == span.end
    requires i <= |events|
    ensures Filter(EndOf(span), events[i..]) ==
      if i <= a then [events[a], events[b]] else if i <= b then [events[b]] else []
    decreases |events| - i
  {
    hide Increasing, EndOf;
    if i < |events| {
      FilterEndsFrom(events, a, b, span, i + 1);
      assert events[i..] == [events[i]] + events[i + 1..];
      EndAt(events, a, b, span, i);
    }
  }

  lemma {:induction false} EndAt(events: seq<Event>, a: nat, b: nat, span: Span, i: nat)
    requires Increasing(events) && a < |events| && b < |events| && events[a].id == span.start && events[b].id == span.end
    requires i < |events|
    ensures EndOf(span)(events[i]) <==> i == a || i == b
  {
  }

  lemma {:induction false} AfterIs(events: seq<Event>, id: int, from: nat, i: nat)
    requires Increasing(events) && from <= i <= |events|
    requires i > from ==> events[i - 1].id <= id
    requires i < |events| ==> events[i].id > id
    ensures After(events, id, from) == i
  {
  }

  /** After n spans the kept events are the outside events up to the end of span n. */
  ghost predicate UpTo(events: seq<Event>, spans: seq<Span>, n: nat, p: Progress)
    requires n <= |spans|
  {
    && p.next <= |events| && p.kept == Outside(events[..p.next], spans)
    && (n > 0 ==> p.next > 0 && events[p.next - 1].id == spans[n - 1].end)
    && (n == 0 ==> p.next == 0)
  }

  lemma {:induction false} KeepAroundStep(events: seq<Event>, spans: seq<Span>, n: nat, p: Progress)
    requires Increasing(events) && Consecutive(spans) && n < |spans| && FromEvents(spans[n], events)
    requires UpTo(events, spans, n, p)
    ensures UpTo(events, spans, n + 1, KeepAround(events, p, spans[n]))
  {
    var a := PositionOf(events, spans[n].start);
    var b := PositionOf(events, spans[n].end);
    assert p.next <= a < b;
    KeepAroundStretch(events, p, spans[n], a, b);
    OutsideStretch(events, spans, n, p.next, a, b);
    OutsideUpTo(events, spans, p.next, b + 1);
  }

  lemma {:induction false} OutsideUpTo(events: seq<Event>, spans: seq<Span>, a: nat, b: nat)
    requires a <= b <= |events|
    ensures Outside(events[..b], spans) == Outside(events[..a], spans) + Outside(events[a..b], spans)
  {
    assert events[..b] == events[..a] + events[a..b];
    FilterAppend(OutsideOf(spans), events[..a], events[a..b]);
  }

  lemma {:induction false} NothingYet(events: seq<Event>, spans: seq<Span>)
    ensures UpTo(events, spans, 0, Progress([], 0))
  {
    assert events[..0] == [];
  }

  lemma {:induction false} KeepAroundIsOutside(events: seq<Event>, spans: seq<Span>, n: nat)
    requires Increasing(events) && Consecutive(spans) && n <= |spans|
    requires forall i :: 0 <= i < |spans| ==> FromEvents(spans[i], events)
    ensures UpTo(events, spans, n, KeepAroundAll(events, spans, n))
  {
    hide Outside, UpTo, KeepAround;
    if n == 0 {
      NothingYet(events, spans);
    } else {
      var p := KeepAroundAll(events, spans, n - 1);
      KeepAroundIsOutside(events, spans, n - 1);
      KeepAroundStep(events, spans, n - 1, p);
      assert KeepAroundAll(events, spans, n) == KeepAround(events, p, spans[n - 1]);
    }
  }

  lemma {:induction false} StretchEnds(events: seq<Event>, from: nat, span: Span, a: nat, b: nat)
    requires Increasing(events) && from <= a < b < |events|
    requires events[a].id == span.start && events[b].id == span.end
    ensures After(events, span.end, 0) == b + 1 && After(events, span.start - 1, from) == a
  {
    AfterIs(events, span.end, 0, b + 1);
    AfterIs(events, span.start - 1, from, a);
  }

  lemma {:induction false} KeepAroundStretch(events: seq<Event>, p: Progress, span: Span, a: nat, b: nat)
    requires Increasing(events) && p.next <= a < b < |events|
    requires events[a].id == span.start && events[b].id == span.end
    ensures KeepAround(events, p, span) == Progress(p.kept + (events[p.next..a] + [events[a], events[b]]), b + 1)
  {
    hide Filter, After, Increasing;
    StretchEnds(events, p.next, span, a, b);
    FilterBelow(events, p.next, span.start);
    FilterEnds(events, a, b, span);
  }

  /** From the end of one span to the end of the next, everything is outside but the inside of the latter. */
  lemma {:induction false} OutsideStretch(events: seq<Event>, spans: seq<Span>, n: nat, from: nat, a: nat, b: nat)
    requires Increasing(events) && Consecutive(spans) && n < |spans|
    requires from <= a < b < |events| && events[a].id == spans[n].start && events[b].id == spans[n].end
    requires n > 0 ==> from > 0 && events[from - 1].id == spans[n - 1].end
    ensures Outside(events[from..b + 1], spans) == events[from..a] + [events[a], events[b]]
  {
    var p := OutsideOf(spans);
    var x, y, z := events[from..a + 1], events[a + 1..b], [events[b]];
    forall i | 0 <= i < |x| ensures p(x[i]) {
      BetweenSpans(events, spans, n, from, a, from + i);
    }
    forall i | 0 <= i < |y| ensures !p(y[i]) {
      assert StrictlyWithin(events[a + 1 + i], spans[n]);
    }
    SpanEndOutside(events[b], spans, n);
    FilterThirds(p, x, y, z);
    assert events[from..b + 1] == x + (y + z);
    assert x == events[from..a] + [events[a]];
  }

  lemma {:induction false} FilterThirds(p: Event -> bool, x: seq<Event>, y: seq<Event>, z: seq<Event>)
    requires forall i :: 0 <= i < |x| ==> p(x[i])
    requires forall i :: 0 <= i < |y| ==> !p(y[i])
    requires forall i :: 0 <= i < |z| ==> p(z[i])
    ensures Filter(p, x + (y + z)) == x + z
  {
    FilterAppend(p, x, y + z);
    FilterAppend(p, y, z);
    FilterAll(p, x);
    FilterAll(p, y);
    FilterAll(p, z);
  }

  lemma {:induction false} SpanEndOutside(e: Event, spans: seq<Span>, n: nat)
    requires Consecutive(spans) && n < |spans| && e.id == spans[n].end
    ensures OutsideAll(e, spans)
  {
    forall t | 0 <= t < |spans| ensures !StrictlyWithin(e, spans[t]) {
      if t < n { assert spans[t].end < spans[n].start; }
      if t > n { assert spans[n].end < spans[t].start; }
    }
  }

  lemma {:induction false} BetweenSpans(events: seq<Event>, spans: seq<Span>, n: nat, from: nat, a: nat, i: nat)
    requires Increasing(events) && Consecutive(spans) && n < |spans|
    requires from <= i <= a < |events| && events[a].id == spans[n].start
    requires n > 0 ==> from > 0 && events[from - 1].id == spans[n - 1].end
    ensures OutsideAll(events[i], spans)
  {
    forall t | 0 <= t < |spans| ensures !StrictlyWithin(events[i], spans[t]) {
      assert events[i].id <= events[a].id;
      if t < n {
        assert spans[t].end <= spans[n - 1].end;
        assert events[from - 1].id < events[i].id;
      }
      if t > n { assert spans[n].end < spans[t].start; }
    }
  }

  lemma {:induction false} AfterAllSpans(events: seq<Event>, spans: seq<Span>, from: nat)
    requires Increasing(events) && Consecutive(spans) && spans != []
    requires 0 < from <= |events| && events[from - 1].id == spans[|spans| - 1].end
    ensures Outside(events[from..], spans) == events[from..]
  {
    var p := OutsideOf(spans);
    forall i | 0 <= i < |events[from..]| ensures p(events[from..][i]) {
      assert events[from - 1].id < events[from + i].id;
      forall t | 0 <= t < |spans| ensures !StrictlyWithin(events[from + i], spans[t]) {
        assert t < |spans| - 1 ==> spans[t].end < spans[|spans| - 1].start;
      }
    }
    FilterAll(p, events[from..]);
  }

  lemma {:induction false} RebuiltConsecutive(events: seq<Event>, spans: seq<Span>)
    requires Increasing(events) && Consecutive(spans) && spans != []
    requires forall i :: 0 <= i < |spans| ==> FromEvents(spans[i], events)
    ensures var p := KeepAroundAll(events, spans, |spans|);
      p.kept + events[p.next..] == Outside(events, spans)
  {
    var p := KeepAroundAll(events, spans, |spans|);
    KeepAroundIsOutside(events, spans, |spans|);
    hide KeepAroundAll, Filter, OutsideOf;
    AfterAllSpans(events, spans, p.next);
    OutsideUpTo(events, spans, p.next, |events|);
    assert events[..|events|] == events && events[p.next..|events|] == events[p.next..];
  }

  lemma {:induction false} SortedSpans(spans: seq<Span>, i: nat) returns (j: nat)
    requires i < |spans|
    ensures j < |spans| && SortSpans(spans)[i] == spans[j]
  {
    assert SortSpans(spans)[i] in multiset(spans);
    j :| j < |spans| && spans[j] == SortSpans(spans)[i];
  }

  lemma {:induction false} UnsortedSpan(spans: seq<Span>, j: nat) returns (i: nat)
    requires j < |spans|
    ensures i < |spans| && SortSpans(spans)[i] == spans[j]
  {
    assert spans[j] in multiset(SortSpans(spans));
    i :| i < |spans| && SortSpans(spans)[i] == spans[j];
  }

  /** Laminar spans without nesting are consecutive once sorted. */
  lemma {:induction false} SortedConsecutive(spans: seq<Span>)
    requires LaminarSpans(spans) && NoneNested(spans)
    ensures Consecutive(SortSpans(spans))
  {
    var s := SortSpans(spans);
    SortInOrder(spans);
    LaminarDistinct(spans);
    forall i | 0 <= i < |s| ensures s[i].start < s[i].end {
      var u := SortedSpans(spans, i);
    }
    forall i, j | 0 <= i < j < |s| ensures s[i].end < s[j].start {
      var u := SortedSpans(spans, i);
      var v := SortedSpans(spans, j);
      if u == v { RepeatedSpan(spans, i, j); }
      assert !Inside(spans[u], spans[v]) && !Inside(spans[v], spans[u]);
      assert u < v || v < u;
    }
  }

  lemma {:induction false} LaminarDistinct(spans: seq<Span>)
    requires LaminarSpans(spans)
    ensures Distinct(spans)
  {
  }

  lemma {:induction false} RepeatedSpan(spans: seq<Span>, i: nat, j: nat)
    requires Distinct(spans) && i < j < |spans|
    ensures SortSpans(spans)[i] != SortSpans(spans)[j]
  {
    var s := SortSpans(spans);
    DistinctMultiset(spans);
    if s[i] == s[j] { TwiceInMultiset(s, i, j); }
  }

  lemma {:induction false} OutsideSorted(events: seq<Event>, spans: seq<Span>)
    ensures Outside(events, SortSpans(spans)) == Outside(events, spans)
  {
    var p, q := OutsideOf(SortSpans(spans)), OutsideOf(spans);
    forall i | 0 <= i < |events| ensures p(events[i]) == q(events[i]) {
      var e := events[i];
      if !p(e) {
        var t :| 0 <= t < |spans| && StrictlyWithin(e, SortSpans(spans)[t]);
        var u := SortedSpans(spans, t);
      }
      if !q(e) {
        var t :| 0 <= t < |spans| && StrictlyWithin(e, spans[t]);
        var u := UnsortedSpan(spans, t);
      }
    }
    FilterAgree(p, q, events);
  }

  /** For events with increasing ids, the rebuilt history is exactly the events that are not strictly
      inside a delegate span, in order and without repetition, if and only if no delegate span lies
      inside another. */
  lemma {:induction false} RebuiltIsOutside(events: seq<Event>)
    requires Increasing(events)
    ensures var spans := SpansOf(events);
      Rebuilt(events) == Outside(events, spans) <==> NoneNested(spans)
  {
    var spans := SpansOf(events);
    SpansAreLaminar(events);
    MatchFromEvents(events, |events|);
    if spans == [] {
      FilterAll(OutsideOf(spans), events);
    } else if NoneNested(spans) {
      forall i | 0 <= i < |spans| ensures FromEvents(SortSpans(spans)[i], events) {
        var u := SortedSpans(spans, i);
      }
      SortedConsecutive(spans);
      RebuiltConsecutive(events, SortSpans(spans));
      OutsideSorted(events, spans);
    } else {
      NestedIsReadded(events);
    }
  }

  /** The ends of every span are put into the rebuilt history, even when they lie inside another span. */
  lemma {:induction false} NestedIsReadded(events: seq<Event>)
    requires Increasing(events) && !NoneNested(SpansOf(events))
    ensures Rebuilt(events) != Outside(events, SpansOf(events))
  {
    var spans := SpansOf(events);
    MatchFromEvents(events, |events|);
    SpansAreLaminar(events);
    var i, j :| 0 <= i < |spans| && 0 <= j < |spans| && Inside(spans[i], spans[j]);
    var t := UnsortedSpan(spans, i);
    assert FromEvents(spans[i], events);
    var a := PositionOf(events, spans[i].start);
    EndsAreKept(events, SortSpans(spans), |spans|, t, events[a]);
    assert StrictlyWithin(events[a], spans[j]);
    FilterMember(OutsideOf(spans), events, events[a]);
  }

  lemma {:induction false} KeepsEnds(events: seq<Event>, p: Progress, span: Span, e: Event)
    requires p.next <= |events| && e in events && e.id == span.start
    ensures e in KeepAround(events, p, span).kept
  {
    FilterMember(EndOf(span), events, e);
  }

  lemma {:induction false} KeepsKept(events: seq<Event>, p: Progress, span: Span, e: Event)
    requires p.next <= |events| && e in p.kept
    ensures e in KeepAround(events, p, span).kept
  {
  }

  lemma {:induction false} EndsAreKept(events: seq<Event>, spans: seq<Span>, n: nat, t: nat, e: Event)
    requires t < n <= |spans| && e in events && e.id == spans[t].start
    ensures e in KeepAroundAll(events, spans, n).kept
  {
    hide Filter, After;
    var p := KeepAroundAll(events, spans, n - 1);
    if t == n - 1 {
      KeepsEnds(events, p, spans[t], e);
    } else {
      EndsAreKept(events, spans, n - 1, t, e);
      KeepsKept(events, p, spans[n - 1], e);
    }
  }

  // ----- a delegate inside a delegate

  function Nested(): (r: seq<Event>)
    ensures Increasing(r)
  {
    [Event(0, Agent, DelegateAction(None), None, None, false),
     Event(1, Agent, DelegateAction(None), None, None, false),
     Event(2, Agent, DelegateObservation, None, None, false),
     Event(3, Agent, DelegateObservation, None, None, false)]
  }

  /** A delegate that delegates: the inner action and observation are not left out, and they come after the
      observation that ends the outer delegate. */
  lemma {:induction false} NestedDelegatesStay()
    ensures Match(Nested(), 4).spans == [Span(1, 2), Span(0, 3)]
    ensures Rebuilt(Nested()) != Outside(Nested(), Match(Nested(), 4).spans)
    ensures var e := Nested(); Rebuilt(e) == [e[0], e[3], e[1], e[2], e[3]]
  {
    NestedMatch();
    NestedRebuilt();
    RebuiltIsOutside(Nested());
    assert Inside(Span(1, 2), Span(0, 3));
  }

  lemma {:induction false} NestedMatch()
    ensures Match(Nested(), 4).spans == [Span(1, 2), Span(0, 3)]
  {
    var e := Nested();
    assert Match(e, 1) == Matching([0], []);
    assert Match(e, 2) == Matching([0, 1], []);
    assert Match(e, 3) == Matching([0], [Span(1, 2)]);
    assert Match(e, 4) == Matching([], [Span(1, 2), Span(0, 3)]);
  }

  lemma {:induction false} NestedRebuilt()
    ensures var e := Nested(); Rebuilt(e) == [e[0], e[3], e[1], e[2], e[3]]
  {
    hide Filter, After, KeepAround, SortSpans, SortBy, Match;
    var e, outer, inner := Nested(), Span(0, 3), Span(1, 2);
    NestedMatch();
    NestedSorted();
    NestedAround();
    var p := KeepAround(e, Progress([], 0), outer);
    assert KeepAroundAll(e, [outer, inner], 0) == Progress([], 0);
    assert KeepAroundAll(e, [outer, inner], 1) == p;
    assert KeepAroundAll(e, [outer, inner], 2) == KeepAround(e, p, inner);
    assert e[3..] == [e[3]];
  }

  lemma {:induction false} NestedSorted()
    ensures SortSpans([Span(1, 2), Span(0, 3)]) == [Span(0, 3), Span(1, 2)]
  {
    var s := SortSpans([Span(1, 2), Span(0, 3)]);
    SortInOrder([Span(1, 2), Span(0, 3)]);
    assert multiset(s) == multiset{Span(1, 2), Span(0, 3)};
    assert s == [s[0], s[1]] && s[0] in multiset(s) && s[1] in multiset(s);
    assert multiset(s)[s[0]] == 1;
  }

  lemma {:induction false} NestedAround()
    ensures var e := Nested(); var p := KeepAround(e, Progress([], 0), Span(0, 3));
      p == Progress([e[0], e[3]], 4) && KeepAround(e, p, Span(1, 2)) == Progress([e[0], e[3], e[1], e[2]], 3)
  {
    hide Filter, After;
    var e := Nested();
    FilterEnds(e, 0, 3, Span(0, 3));
    FilterEnds(e, 1, 2, Span(1, 2));
    assert Filter(IdBelow(0), e[0..]) == [] by { FilterAll(IdBelow(0), e[0..]); }
    assert Filter(IdBelow(1), e[4..]) == [] by { FilterAll(IdBelow(1), e[4..]); }
    assert After(e, 3, 0) == 4 && After(e, 2, 0) == 3;
  }

  // ----- the loops themselves

  method DelegateSpans(events: seq<Event>) returns (spans: seq<Span>)
    ensures spans == SpansOf(events)
  {
    var open := [];
    spans := [];
    for n := 0 to |events|
      invariant Matching(open, spans) == Match(events, n)
    {
      var e := events[n];
      if e.kind.DelegateAction? {
        open := open + [e.id];
      } else if e.kind.DelegateObservation? {
        if |open| == 0 { continue; }
        var actionId := open[|open| - 1];
        open := open[..|open| - 1];
        spans := spans + [Span(actionId, e.id)];
      }
    }
  }

  /** The history that is loaded from the stream's events. */
  method InitHistory(events: seq<Event>) returns (history: seq<Event>)
    ensures history == Rebuilt(events)
  {
    hide KeepAround, Match, SortSpans;
    var spans := DelegateSpans(events);
    if spans == [] { return events; }
    var sorted := SortSpans(spans);
    var filtered := [];
    var currentIdx: nat := 0;
    for n := 0 to |sorted|
      invariant Progress(filtered, currentIdx) == KeepAroundAll(events, sorted, n)
    {
      filtered, currentIdx := KeepAroundSpan(events, filtered, currentIdx, sorted[n]);
    }
    history := filtered + events[currentIdx..];
  }

  method KeepAroundSpan(events: seq<Event>, kept: seq<Event>, currentIdx: nat, span: Span)
    returns (filtered: seq<Event>, nextIdx: nat)
    requires currentIdx <= |events|
    ensures Progress(filtered, nextIdx) == KeepAround(events, Progress(kept, currentIdx), span)
  {
    filtered := kept + Filter(IdBelow(span.start), events[currentIdx..]);
    filtered := filtered + Filter(EndOf(span), events);
    nextIdx := After(events, span.end, 0);
  }
}
