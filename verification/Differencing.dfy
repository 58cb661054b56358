/**
 The values that the largest differencing method works on, and what one merge does to them:
 a set is a list of (index, length) items with a running sum, a state is k sets in decreasing
 order. The classes that update these values in place are in KarmarkarKarp.dfy.
 */
module Differencing {
  import opened Sequences
  import opened Sorting

  datatype Item = Item(idx: nat, len: nat)

  datatype SetVal = SetVal(sum: int, items: seq<Item>)

  type StateVal = seq<SetVal>

  const EMPTY_SET := SetVal(0, [])

  function Total(items: seq<Item>): nat {
    if items == [] then 0 else items[0].len + Total(items[1..])
  }

  lemma {:induction false} TotalAppend(a: seq<Item>, b: seq<Item>)
    ensures Total(a + b) == Total(a) + Total(b)
  {
    if a == [] {
      assert a + b == b;
    } else {
      assert (a + b)[1..] == a[1..] + b;
      TotalAppend(a[1..], b);
    }
  }

  /** The running sum of a set is the total length of its items. */
  predicate Sound(s: SetVal) {
    s.sum == Total(s.items)
  }

  function MergeSets(a: SetVal, b: SetVal): SetVal {
    SetVal(a.sum + Total(b.items), a.items + b.items)
  }

  // ----- the order on sets: sum, then number of items, then the items as tuples

  predicate ItemLess(a: Item, b: Item) {
    a.idx < b.idx || (a.idx == b.idx && a.len < b.len)
  }

  predicate LexLess(a: seq<Item>, b: seq<Item>) {
    if b == [] then false
    else if a == [] then true
    else if a[0] != b[0] then ItemLess(a[0], b[0])
    else LexLess(a[1..], b[1..])
  }

  predicate SetLess(a: SetVal, b: SetVal) {
    if a.sum != b.sum then a.sum < b.sum
    else if |a.items| != |b.items| then |a.items| < |b.items|
    else LexLess(a.items, b.items)
  }

  lemma {:induction false} LexTrichotomy(a: seq<Item>, b: seq<Item>)
    ensures LexLess(a, b) || LexLess(b, a) || a == b
    ensures !(LexLess(a, b) && LexLess(b, a))
    ensures !LexLess(a, a)
  {
    if a != [] && b != [] {
      LexTrichotomy(a[1..], b[1..]);
      assert a == [a[0]] + a[1..] && b == [b[0]] + b[1..];
    }
    if a != [] { LexTrichotomy(a[1..], a[1..]); }
  }

  lemma {:induction false} LexTransitive(a: seq<Item>, b: seq<Item>, c: seq<Item>)
    requires LexLess(a, b) && LexLess(b, c)
    ensures LexLess(a, c)
  {
    if a != [] && a[0] == b[0] == c[0] {
      LexTransitive(a[1..], b[1..], c[1..]);
    }
  }

  /** Comparing sets is a strict total order on their values. */
  lemma {:induction false} SetTrichotomy(a: SetVal, b: SetVal)
    ensures SetLess(a, b) || SetLess(b, a) || a == b
    ensures !(SetLess(a, b) && SetLess(b, a))
  {
    LexTrichotomy(a.items, b.items);
  }

  lemma {:induction false} SetTransitive(a: SetVal, b: SetVal, c: SetVal)
    requires !SetLess(a, b) && !SetLess(b, c)
    ensures !SetLess(a, c)
  {
    SetTrichotomy(a, b);
    SetTrichotomy(b, c);
    SetTrichotomy(a, c);
    if SetLess(b, a) && SetLess(c, b) && SetLess(a, c) {
      if a.sum == b.sum == c.sum && |a.items| == |b.items| == |c.items| {
        LexTransitive(c.items, b.items, a.items);
        LexTrichotomy(a.items, c.items);
        assert false;
      }
    }
  }

  // ----- sorted(sets, reverse=True)

  predicate Descending(s: StateVal) {
    forall i, j :: 0 <= i < j < |s| ==> !SetLess(s[i], s[j])
  }

  function LargerFirst(): (SetVal, SetVal) -> bool { (a: SetVal, b: SetVal) => SetLess(b, a) }

  function SortDescending(s: StateVal): (r: StateVal)
    ensures multiset(r) == multiset(s)
    ensures |r| == |s|
  {
    SortBy(LargerFirst(), s)
  }

  lemma {:induction false} LargerFirstIsOrder()
    ensures WeakOrder(LargerFirst())
  {
    hide SetLess;
    forall a: SetVal, b: SetVal | SetLess(b, a) ensures !SetLess(a, b) {
      SetTrichotomy(a, b);
    }
    forall a: SetVal, b: SetVal, c: SetVal | !SetLess(a, b) && !SetLess(b, c) ensures !SetLess(a, c) {
      SetTransitive(a, b, c);
    }
  }

  /** A larger sum, or as large a sum and more items, or as many items of which the first has no lower index. */
  predicate NotBelow(a: SetVal, b: SetVal) {
    || a.sum > b.sum
    || (a.sum == b.sum && |a.items| > |b.items|)
    || (a.sum == b.sum && |a.items| == |b.items| && (a.items == [] || a.items[0].idx >= b.items[0].idx))
  }

  lemma {:induction false} NotLessIsNotBelow(a: SetVal, b: SetVal)
    requires !SetLess(a, b)
    ensures NotBelow(a, b)
  {
  }

  lemma {:induction false} SortIsDescending(s: StateVal)
    ensures Descending(SortDescending(s))
    ensures forall i, j :: 0 <= i < j < |s| ==> NotBelow(SortDescending(s)[i], SortDescending(s)[j])
  {
    hide SortBy, SetLess, NotBelow;
    LargerFirstIsOrder();
    SortOrdered(LargerFirst(), s);
    var r := SortDescending(s);
    forall i, j | 0 <= i < j < |s| ensures NotBelow(r[i], r[j]) {
      NotLessIsNotBelow(r[i], r[j]);
    }
  }

  // ----- the items held by a state

  function Contents(s: StateVal): multiset<Item> {
    if s == [] then multiset{} else multiset(s[0].items) + Contents(s[1..])
  }

  lemma {:induction false} ContentsAppend(a: StateVal, b: StateVal)
    ensures Contents(a + b) == Contents(a) + Contents(b)
  {
    if a == [] {
      assert a + b == b;
    } else {
      assert (a + b)[1..] == a[1..] + b;
      ContentsAppend(a[1..], b);
    }
  }

  lemma {:induction false} InsertContents(x: SetVal, rest: StateVal)
    ensures Contents(InsertBy(LargerFirst(), x, rest)) == multiset(x.items) + Contents(rest)
    ensures Filled(InsertBy(LargerFirst(), x, rest)) == (if x.items == [] then 0 else 1) + Filled(rest)
  {
    if rest != [] && SetLess(x, rest[0]) {
      InsertContents(x, rest[1..]);
      assert InsertBy(LargerFirst(), x, rest)[1..] == InsertBy(LargerFirst(), x, rest[1..]);
    } else if rest != [] {
      assert InsertBy(LargerFirst(), x, rest)[1..] == rest;
    }
  }

  /** Sorting moves sets, never items, and keeps the number of non-empty sets. */
  lemma {:induction false} SortContents(s: StateVal)
    ensures Contents(SortDescending(s)) == Contents(s)
    ensures Filled(SortDescending(s)) == Filled(s)
  {
    if s != [] {
      SortContents(s[1..]);
      InsertContents(s[0], SortDescending(s[1..]));
    }
  }

  /** The number of non-empty sets. */
  function Filled(s: StateVal): (n: nat)
    ensures n <= |s|
  {
    if s == [] then 0 else (if s[0].items == [] then 0 else 1) + Filled(s[1..])
  }

  lemma {:induction false} FilledUniform(s: StateVal)
    ensures (forall i :: 0 <= i < |s| ==> s[i].items != []) ==> Filled(s) == |s|
    ensures (forall i :: 0 <= i < |s| ==> s[i].items == []) ==> Filled(s) == 0
  {
    if s != [] {
      FilledUniform(s[1..]);
      assert forall i :: 0 <= i < |s[1..]| ==> s[1..][i] == s[i + 1];
    }
  }

  /** In a descending state of sound sets, the non-empty sets come first. */
  lemma {:induction false} FilledIsPrefix(s: StateVal)
    requires Descending(s)
    requires forall i :: 0 <= i < |s| ==> Sound(s[i])
    ensures forall i :: 0 <= i < |s| ==> (s[i].items != [] <==> i < Filled(s))
  {
    if s != [] {
      var tail := s[1..];
      assert forall i, j :: 0 <= i < j < |tail| ==> tail[i] == s[i + 1] && tail[j] == s[j + 1];
      FilledIsPrefix(tail);
      if s[0].items == [] {
        forall i | 0 <= i < |tail| ensures tail[i].items == [] {
          assert !SetLess(s[0], s[i + 1]);
        }
        FilledUniform(tail);
      }
      forall i | 0 < i < |s| ensures s[i].items != [] <==> i < Filled(s) {
        assert s[i] == tail[i - 1];
      }
    }
  }

  // ----- one state

  function Spread(s: StateVal): int
    requires s != []
  {
    s[0].sum - s[|s| - 1].sum
  }

  /** Position i of one state receives position k-1-i of the other. */
  function Opposed(a: StateVal, b: StateVal): (r: StateVal)
    requires |a| == |b|
    ensures |r| == |a|
    ensures forall i :: 0 <= i < |a| ==> r[i] == MergeSets(a[i], b[|b| - 1 - i])
  {
    seq(|a|, i requires 0 <= i < |a| => MergeSets(a[i], b[|b| - 1 - i]))
  }

  function MergeStates(a: StateVal, b: StateVal): (r: StateVal)
    requires |a| == |b|
    ensures |r| == |a|
  {
    SortDescending(Opposed(a, b))
  }

  /** What every state in the heap looks like: k sound sets in decreasing order, of which
      exactly min(k, number of items) are non-empty. */
  ghost predicate WellFormed(s: StateVal, k: nat) {
    && |s| == k > 0
    && Descending(s)
    && (forall i :: 0 <= i < k ==> Sound(s[i]))
    && Filled(s) == (if |Contents(s)| < k then |Contents(s)| else k)
  }

  lemma {:induction false} OpposedContents(a: StateVal, b: StateVal)
    requires |a| == |b|
    ensures Contents(Opposed(a, b)) == Contents(a) + Contents(b)
  {
    if a != [] {
      var last := |b| - 1;
      var top, rest := MergeSets(a[0], b[last]), Opposed(a[1..], b[..last]);
      OpposedContents(a[1..], b[..last]);
      OpposedUnfold(a, b);
      assert multiset(top.items) == multiset(a[0].items) + multiset(b[last].items);
      ContentsLast(b);
      assert Contents(Opposed(a, b)) == multiset(top.items) + Contents(rest) by {
        assert ([top] + rest)[1..] == rest;
      }
    }
  }

  lemma {:induction false} OpposedUnfold(a: StateVal, b: StateVal)
    requires |a| == |b| > 0
    ensures Opposed(a, b) == [MergeSets(a[0], b[|b| - 1])] + Opposed(a[1..], b[..|b| - 1])
  {
  }

  lemma {:induction false} ContentsLast(b: StateVal)
    requires b != []
    ensures Contents(b) == Contents(b[..|b| - 1]) + multiset(b[|b| - 1].items)
  {
    var last := |b| - 1;
    assert b == b[..last] + [b[last]];
    ContentsAppend(b[..last], [b[last]]);
    assert Contents([b[last]]) == multiset(b[last].items) + Contents([]);
  }

  /** A state whose non-empty sets are the first p and the last q. */
  lemma {:induction false} FilledPattern(c: StateVal, p: nat, q: nat)
    requires p + q <= |c|
    requires forall i :: 0 <= i < |c| ==> (c[i].items != [] <==> i < p || i >= |c| - q)
    ensures Filled(c) == p + q
  {
    if p + q == |c| {
      FilledUniform(c);
    } else {
      assert forall i :: 0 <= i < |c[1..]| ==> c[1..][i] == c[i + 1];
      FilledPattern(c[1..], if p > 0 then p - 1 else 0, q);
    }
  }

  /** Opposite order spreads the non-empty sets as far apart as they go. */
  lemma {:induction false} OpposedFilled(a: StateVal, b: StateVal, p: nat, q: nat)
    requires |a| == |b|
    requires forall i :: 0 <= i < |a| ==> (a[i].items != [] <==> i < p)
    requires forall i :: 0 <= i < |b| ==> (b[i].items != [] <==> i < q)
    ensures Filled(Opposed(a, b)) == if p + q < |a| then p + q else |a|
  {
    var c := Opposed(a, b);
    forall i | 0 <= i < |c| ensures c[i].items != [] <==> i < p || i >= |c| - q {
      assert c[i].items == a[i].items + b[|b| - 1 - i].items;
    }
    if p + q < |c| {
      FilledPattern(c, p, q);
    } else {
      FilledUniform(c);
    }
  }

  lemma {:induction false} MergeWellFormed(a: StateVal, b: StateVal, k: nat)
    requires WellFormed(a, k) && WellFormed(b, k)
    ensures WellFormed(MergeStates(a, b), k)
    ensures Contents(MergeStates(a, b)) == Contents(a) + Contents(b)
  {
    var c := Opposed(a, b);
    OpposedContents(a, b);
    FilledIsPrefix(a);
    FilledIsPrefix(b);
    OpposedFilled(a, b, Filled(a), Filled(b));
    SortContents(c);
    SortIsDescending(c);
    MergeSound(a, b);
  }

  lemma {:induction false} MergeSound(a: StateVal, b: StateVal)
    requires |a| == |b|
    requires forall i :: 0 <= i < |a| ==> Sound(a[i]) && Sound(b[i])
    ensures forall i :: 0 <= i < |a| ==> Sound(MergeStates(a, b)[i])
  {
    var c := Opposed(a, b);
    forall i | 0 <= i < |a| ensures Sound(MergeStates(a, b)[i]) {
      var j := OriginOf(c, i);
      assert Sound(a[j]) && Sound(b[|b| - 1 - j]);
      TotalAppend(a[j].items, b[|b| - 1 - j].items);
    }
  }

  /** Every set of a sorted state was somewhere in the unsorted one. */
  lemma {:induction false} OriginOf(s: StateVal, i: nat) returns (j: nat)
    requires i < |s|
    ensures j < |s| && s[j] == SortDescending(s)[i]
  {
    assert SortDescending(s)[i] in multiset(s);
    j :| j < |s| && s[j] == SortDescending(s)[i];
  }

  /** The differencing step: merging in opposite order never widens the larger spread. */
  lemma {:induction false} MergeSpread(a: StateVal, b: StateVal, k: nat)
    requires WellFormed(a, k) && WellFormed(b, k)
    ensures Spread(MergeStates(a, b)) <= if Spread(a) < Spread(b) then Spread(b) else Spread(a)
  {
    hide Sound, Descending, Filled, Contents;
    var c := Opposed(a, b);
    var hi := OriginOf(c, 0);
    var lo := OriginOf(c, k - 1);
    OpposedGap(a, b, hi, lo);
  }

  lemma {:induction false} OpposedGap(a: StateVal, b: StateVal, hi: nat, lo: nat)
    requires |a| == |b| && hi < |a| && lo < |a| && Descending(a) && Descending(b)
    requires forall i :: 0 <= i < |b| ==> Sound(b[i])
    ensures Opposed(a, b)[hi].sum - Opposed(a, b)[lo].sum <= if Spread(a) < Spread(b) then Spread(b) else Spread(a)
  {
    var hi', lo' := |b| - 1 - hi, |b| - 1 - lo;
    SpreadBoundsGaps(a, hi, lo);
    SpreadBoundsGaps(b, hi', lo');
    assert Sound(b[hi']) && Sound(b[lo']);
  }

  lemma {:induction false} SpreadBoundsGaps(s: StateVal, i: nat, j: nat)
    requires Descending(s) && i < |s| && j < |s|
    ensures s[i].sum - s[j].sum <= Spread(s)
    ensures i >= j ==> s[i].sum - s[j].sum <= 0
  {
    assert i > 0 ==> !SetLess(s[0], s[i]);
    assert j < |s| - 1 ==> !SetLess(s[j], s[|s| - 1]);
    assert j < i ==> !SetLess(s[j], s[i]);
  }

  /** Every set of the state holds m items. */
  predicate Even(s: StateVal, m: nat) {
    forall i :: 0 <= i < |s| ==> |s[i].items| == m
  }

  lemma {:induction false} MergeEven(a: StateVal, b: StateVal, m: nat, n: nat)
    requires |a| == |b| && Even(a, m) && Even(b, n)
    ensures Even(MergeStates(a, b), m + n)
  {
    var c := Opposed(a, b);
    forall i | 0 <= i < |c| ensures |MergeStates(a, b)[i].items| == m + n {
      var j := OriginOf(c, i);
    }
  }

  // ----- the order on states

  predicate StateLess(a: StateVal, b: StateVal)
    requires a != [] && b != []
  {
    if Spread(a) != Spread(b) then Spread(a) > Spread(b) else SetLess(b[0], a[0])
  }

  /** What being popped first means: a larger gap between the first and the last sum, or as large a gap and a
      first set that is not below the other's. */
  predicate PoppedFirst(a: StateVal, b: StateVal)
    requires a != [] && b != []
  {
    var gapA, gapB := a[0].sum - a[|a| - 1].sum, b[0].sum - b[|b| - 1].sum;
    gapA > gapB || (gapA == gapB && NotBelow(a[0], b[0]))
  }

  lemma {:induction false} NotGreaterPopsFirst(a: StateVal, b: StateVal)
    requires a != [] && b != [] && !StateLess(b, a)
    ensures PoppedFirst(a, b)
  {
    if Spread(a) == Spread(b) { NotLessIsNotBelow(a[0], b[0]); }
  }

  /** States with disjoint, non-empty contents are never tied, so a heap has one least state
      and the order in which its states were pushed does not matter. */
  lemma {:induction false} NoTies(a: StateVal, b: StateVal, k: nat)
    requires WellFormed(a, k) && WellFormed(b, k)
    requires Contents(a) != multiset{} && Contents(a) !! Contents(b)
    ensures StateLess(a, b) || StateLess(b, a)
  {
    FilledIsPrefix(a);
    HeadItem(a);
    HeadItem(b);
    SetTrichotomy(a[0], b[0]);
  }

  lemma {:induction false} HeadItem(s: StateVal)
    requires s != []
    ensures s[0].items != [] ==> s[0].items[0] in Contents(s)
  {
  }

  lemma {:induction false} StateTransitive(a: StateVal, b: StateVal, c: StateVal)
    requires a != [] && b != [] && c != []
    requires !StateLess(b, a) && !StateLess(c, b)
    ensures !StateLess(c, a)
  {
    if Spread(a) == Spread(b) == Spread(c) {
      SetTransitive(a[0], b[0], c[0]);
    }
  }
}
