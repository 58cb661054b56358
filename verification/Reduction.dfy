/**
 The heap of states: building it from the sorted lengths, popping two states and pushing their
 merge, and what holds of every heap in every run, whatever the order of the pops.
 */
module Reduction {
  import opened Sequences
  import opened Differencing
  import opened Sorting
  import Arithmetic

  type Heap = seq<StateVal>

  // ----- the items, in increasing order of (length, index)

  function ItemsOf(lens: seq<nat>): (r: seq<Item>)
    ensures |r| == |lens| && forall i :: 0 <= i < |lens| ==> r[i] == Item(i, lens[i])
  {
    seq(|lens|, i requires 0 <= i < |lens| => Item(i, lens[i]))
  }

  predicate ShortLess(a: Item, b: Item) {
    a.len < b.len || (a.len == b.len && a.idx < b.idx)
  }

  predicate Ascending(s: seq<Item>) {
    forall i, j :: 0 <= i < j < |s| ==> s[i].len <= s[j].len
  }

  function ShorterFirst(): (Item, Item) -> bool { (a: Item, b: Item) => ShortLess(a, b) }

  function SortShort(s: seq<Item>): (r: seq<Item>)
    ensures multiset(r) == multiset(s)
    ensures |r| == |s|
  {
    SortBy(ShorterFirst(), s)
  }

  /** By length, and by index where the lengths are equal. */
  lemma {:induction false} SortShortAscending(s: seq<Item>)
    ensures Ascending(SortShort(s))
    ensures forall i, j :: 0 <= i < j < |s| ==>
      var a, b := SortShort(s)[i], SortShort(s)[j]; a.len < b.len || (a.len == b.len && a.idx <= b.idx)
  {
    hide SortBy;
    SortOrdered(ShorterFirst(), s);
  }

  // ----- initial states

  function Singletons(items: seq<Item>, k: nat): (r: StateVal)
    requires |items| <= k
    ensures |r| == k
    ensures forall i :: 0 <= i < k ==> r[i] == if i < |items| then SetVal(items[i].len, [items[i]]) else EMPTY_SET
  {
    seq(k, i requires 0 <= i < k => if i < |items| then SetVal(items[i].len, [items[i]]) else EMPTY_SET)
  }

  function InitialState(items: seq<Item>, k: nat): (r: StateVal)
    requires |items| <= k
    ensures |r| == k
  {
    SortDescending(Singletons(items, k))
  }

  lemma {:induction false} SingletonContents(items: seq<Item>, k: nat)
    requires |items| <= k
    ensures Contents(Singletons(items, k)) == multiset(items)
    ensures Filled(Singletons(items, k)) == |items|
  {
    hide Contents, Filled, Singletons;
    if items == [] {
      NoContents(Singletons(items, k));
    } else {
      var first, rest := SetVal(items[0].len, [items[0]]), Singletons(items[1..], k - 1);
      SingletonContents(items[1..], k - 1);
      SingletonsFirst(items, k);
      FirstContents(first, rest);
      FirstOfMultiset(items);
    }
  }

  lemma {:induction false} SingletonsFirst(items: seq<Item>, k: nat)
    requires 1 <= |items| <= k
    ensures Singletons(items, k) == [SetVal(items[0].len, [items[0]])] + Singletons(items[1..], k - 1)
  {
  }

  lemma {:induction false} FirstOfMultiset<T>(s: seq<T>)
    requires s != []
    ensures multiset(s) == multiset([s[0]]) + multiset(s[1..])
  {
    assert s == [s[0]] + s[1..];
  }

  lemma {:induction false} NoContents(s: StateVal)
    requires forall i :: 0 <= i < |s| ==> s[i].items == []
    ensures Contents(s) == multiset{} && Filled(s) == 0
  {
    if s != [] { NoContents(s[1..]); }
  }

  lemma {:induction false} FirstContents(s: SetVal, rest: StateVal)
    ensures Contents([s] + rest) == multiset(s.items) + Contents(rest)
    ensures Filled([s] + rest) == (if s.items == [] then 0 else 1) + Filled(rest)
  {
    assert ([s] + rest)[1..] == rest;
  }

  lemma {:induction false} InitialContents(items: seq<Item>, k: nat)
    requires |items| <= k
    ensures Contents(InitialState(items, k)) == multiset(items)
  {
    SingletonContents(items, k);
    SortContents(Singletons(items, k));
  }

  lemma {:induction false} InitialWellFormed(items: seq<Item>, k: nat)
    requires 1 <= |items| <= k
    ensures WellFormed(InitialState(items, k), k)
    ensures Contents(InitialState(items, k)) == multiset(items)
    ensures |items| == k ==> Even(InitialState(items, k), 1)
  {
    hide SortDescending, Singletons, Contents, Filled, Descending;
    var s := Singletons(items, k);
    SingletonContents(items, k);
    SortContents(s);
    SortIsDescending(s);
    forall i | 0 <= i < k
      ensures Sound(InitialState(items, k)[i])
      ensures |items| == k ==> |InitialState(items, k)[i].items| == 1
    {
      var j := OriginOf(s, i);
      SingletonSound(items, k, j);
    }
  }

  lemma {:induction false} SingletonSound(items: seq<Item>, k: nat, j: nat)
    requires |items| <= k && j < k
    ensures Sound(Singletons(items, k)[j])
  {
    if j < |items| { assert Total([items[j]]) == items[j].len + Total([]); }
  }

  /** A block of k ascending items starts with the gap between its ends as spread; a single item with at most its length. */
  lemma {:induction false} InitialSpread(items: seq<Item>, k: nat)
    requires 1 <= |items| <= k && Ascending(items)
    ensures |items| == k ==> Spread(InitialState(items, k)) <= items[k - 1].len - items[0].len
    ensures |items| == 1 ==> Spread(InitialState(items, k)) <= items[0].len
  {
    hide SortDescending, Singletons;
    var s := Singletons(items, k);
    var hi := OriginOf(s, 0);
    var lo := OriginOf(s, k - 1);
    assert s[hi].sum <= items[|items| - 1].len;
    assert |items| == k ==> s[lo].sum >= items[0].len;
  }

  /** The item lists that become one initial state each: single items, or k consecutive ones. */
  function Singles(items: seq<Item>): (r: seq<seq<Item>>)
    ensures |r| == |items| && forall i :: 0 <= i < |items| ==> r[i] == [items[i]]
  {
    seq(|items|, i requires 0 <= i < |items| => [items[i]])
  }

  function Blocks(items: seq<Item>, offset: nat, k: nat): (r: seq<seq<Item>>)
    requires k >= 1 && offset <= |items|
    ensures forall b :: 0 <= b < |r| ==> |r[b]| == k
    decreases offset
  {
    if offset < k then []
    else Blocks(items, offset - k, k) + [items[offset - k..offset]]
  }

  ghost predicate Fit(groups: seq<seq<Item>>, k: nat) {
    forall g :: 0 <= g < |groups| ==> 1 <= |groups[g]| <= k
  }

  function StatesOf(groups: seq<seq<Item>>, k: nat): (r: Heap)
    requires forall g :: 0 <= g < |groups| ==> |groups[g]| <= k
    ensures |r| == |groups| && forall g :: 0 <= g < |groups| ==> r[g] == InitialState(groups[g], k)
  {
    seq(|groups|, g requires 0 <= g < |groups| => InitialState(groups[g], k))
  }

  /** The widest gap inside one block of k consecutive items. */
  function WidestBlock(items: seq<Item>, offset: nat, k: nat): nat
    requires k >= 1 && offset <= |items|
    decreases offset
  {
    if offset < k then 0
    else
      var before := WidestBlock(items, offset - k, k);
      var gap := items[offset - 1].len - items[offset - k].len;
      if gap > before then gap else before
  }

  predicate GapIs(block: seq<Item>, gap: int) {
    block != [] && block[|block| - 1].len - block[0].len == gap
  }

  /** The widest gap is that of one of the blocks, unless it is zero. */
  lemma {:induction false} WidestIsAttained(items: seq<Item>, offset: nat, k: nat)
    requires k >= 1 && offset <= |items|
    ensures WidestBlock(items, offset, k) == 0 || exists block :: block in Blocks(items, offset, k) && GapIs(block, WidestBlock(items, offset, k))
    decreases offset
  {
    if offset >= k {
      var before, last := Blocks(items, offset - k, k), items[offset - k..offset];
      WidestIsAttained(items, offset - k, k);
      assert GapIs(last, items[offset - 1].len - items[offset - k].len);
      assert (before + [last])[|before|] == last;
      assert forall block :: block in before ==> block in before + [last];
    }
  }

  function Longest(lens: seq<nat>): (m: nat)
    ensures forall i :: 0 <= i < |lens| ==> lens[i] <= m
    ensures lens != [] ==> m in lens
  {
    if lens == [] then 0
    else
      var rest := Longest(lens[1..]);
      assert forall i :: 0 < i < |lens| ==> lens[i] == lens[1..][i - 1];
      if lens[0] > rest then lens[0] else rest
  }

  function InitialHeap(lens: seq<nat>, k: nat, equalSize: bool): Heap
    requires k >= 1 && (equalSize ==> |lens| % k == 0)
  {
    var items := SortShort(ItemsOf(lens));
    StatesOf(if equalSize then Blocks(items, |items|, k) else Singles(items), k)
  }

  /** The spread that no state of the heap ever exceeds. */
  function SpreadBound(lens: seq<nat>, k: nat, equalSize: bool): nat
    requires k >= 1 && (equalSize ==> |lens| % k == 0)
  {
    if equalSize then WidestBlock(SortShort(ItemsOf(lens)), |lens|, k) else Longest(lens)
  }

  // ----- what every heap satisfies

  function Held(heap: Heap): multiset<Item> {
    if heap == [] then multiset{} else Contents(heap[0]) + Held(heap[1..])
  }

  lemma {:induction false} HeldAppend(a: Heap, b: Heap)
    ensures Held(a + b) == Held(a) + Held(b)
  {
    if a == [] {
      assert a + b == b;
    } else {
      assert (a + b)[1..] == a[1..] + b;
      HeldAppend(a[1..], b);
    }
  }

  ghost predicate StateOk(s: StateVal, k: nat, bound: int, equalSize: bool) {
    && WellFormed(s, k)
    && Spread(s) <= bound
    && Contents(s) != multiset{}
    && (equalSize ==> Even(s, |s[0].items|))
  }

  ghost predicate HeapOk(heap: Heap, k: nat, bound: int, equalSize: bool) {
    forall i :: 0 <= i < |heap| ==> StateOk(heap[i], k, bound, equalSize)
  }

  lemma {:induction false} NothingHeld()
    ensures Held([]) == multiset{}
  {
  }

  lemma {:induction false} StatesHeld(groups: seq<seq<Item>>, k: nat)
    requires Fit(groups, k)
    ensures Held(StatesOf(groups, k)) == multiset(Flatten(groups))
  {
    hide InitialState, Contents, Held;
    if groups == [] {
      NothingHeld();
    } else {
      StatesHeld(groups[1..], k);
      InitialContents(groups[0], k);
      HeldPrepend(InitialState(groups[0], k), StatesOf(groups[1..], k));
      assert StatesOf(groups, k) == [InitialState(groups[0], k)] + StatesOf(groups[1..], k);
    }
  }

  lemma {:induction false} SinglesFlatten(items: seq<Item>)
    ensures Flatten(Singles(items)) == items
  {
    if items != [] {
      SinglesFlatten(items[1..]);
      assert Singles(items)[1..] == Singles(items[1..]);
    }
  }

  lemma {:induction false} BlocksFlatten(items: seq<Item>, offset: nat, k: nat, blocks: nat)
    requires k >= 1 && offset <= |items| && offset == blocks * k
    ensures Flatten(Blocks(items, offset, k)) == items[..offset]
    ensures |Blocks(items, offset, k)| == blocks
    decreases blocks
  {
    if blocks > 0 {
      Arithmetic.NextMultiple(offset, k, blocks);
      BlocksFlatten(items, offset - k, k, blocks - 1);
      BlocksLast(items, offset, k);
    }
  }

  lemma {:induction false} BlocksLast(items: seq<Item>, offset: nat, k: nat)
    requires 1 <= k <= offset <= |items|
    ensures Flatten(Blocks(items, offset, k)) == Flatten(Blocks(items, offset - k, k)) + items[offset - k..offset]
  {
    var last := items[offset - k..offset];
    FlattenAppend(Blocks(items, offset - k, k), [last]);
    assert Flatten([last]) == last + Flatten([]);
  }

  /** Every block starts at most the widest gap below its end. */
  lemma {:induction false} BlocksWithin(items: seq<Item>, offset: nat, k: nat)
    requires k >= 1 && Ascending(items) && offset <= |items|
    ensures forall b :: 0 <= b < |Blocks(items, offset, k)| ==>
      var block := Blocks(items, offset, k)[b];
      Ascending(block) && block[k - 1].len - block[0].len <= WidestBlock(items, offset, k)
    decreases offset
  {
    if offset >= k { BlocksWithin(items, offset - k, k); }
  }

  lemma {:induction false} BlockOk(block: seq<Item>, k: nat, bound: int)
    requires k >= 1 && Ascending(block) && |block| == k && block[k - 1].len - block[0].len <= bound
    ensures StateOk(InitialState(block, k), k, bound, true)
  {
    InitialWellFormed(block, k);
    InitialSpread(block, k);
    assert block[0] in multiset(block);
  }

  lemma {:induction false} SingleOk(item: Item, k: nat, bound: int)
    requires k >= 1 && item.len <= bound
    ensures StateOk(InitialState([item], k), k, bound, false)
  {
    InitialWellFormed([item], k);
    InitialSpread([item], k);
    assert item in multiset([item]);
  }

  lemma {:induction false} AllBlocks(items: seq<Item>, k: nat)
    requires k >= 1 && |items| % k == 0
    ensures Flatten(Blocks(items, |items|, k)) == items
    ensures items != [] ==> Blocks(items, |items|, k) != []
  {
    var blocks := |items| / k;
    Arithmetic.ExactQuotient(|items|, k);
    BlocksFlatten(items, |items|, k, blocks);
    if items != [] { Arithmetic.NextMultiple(|items|, k, blocks); }
  }

  lemma {:induction false} SortedItems(lens: seq<nat>)
    ensures var items := SortShort(ItemsOf(lens));
      && |items| == |lens| && multiset(items) == multiset(ItemsOf(lens))
      && forall i :: 0 <= i < |items| ==> items[i].len <= Longest(lens)
  {
    var items := SortShort(ItemsOf(lens));
    assert |items| == |multiset(items)| == |multiset(ItemsOf(lens))| == |lens|;
    forall i | 0 <= i < |items| ensures items[i].len <= Longest(lens) {
      assert items[i] in multiset(ItemsOf(lens));
    }
  }

  lemma {:induction false} InitialBlocksOk(lens: seq<nat>, k: nat)
    requires k >= 1 && |lens| % k == 0
    ensures HeapOk(InitialHeap(lens, k, true), k, SpreadBound(lens, k, true), true)
    ensures Held(InitialHeap(lens, k, true)) == multiset(ItemsOf(lens))
    ensures lens != [] ==> InitialHeap(lens, k, true) != []
  {
    hide HeapOk, StatesOf, Held, Blocks, SortShort, WidestBlock, Contents, Ascending;
    var items := SortShort(ItemsOf(lens));
    SortShortAscending(ItemsOf(lens));
    SortedItems(lens);
    BlocksOk(items, k);
    StatesHeld(Blocks(items, |items|, k), k);
  }

  lemma {:induction false} InitialSinglesOk(lens: seq<nat>, k: nat)
    requires k >= 1
    ensures HeapOk(InitialHeap(lens, k, false), k, SpreadBound(lens, k, false), false)
    ensures Held(InitialHeap(lens, k, false)) == multiset(ItemsOf(lens))
    ensures lens != [] ==> InitialHeap(lens, k, false) != []
  {
    hide HeapOk, StatesOf, Held, Singles, SortShort, Contents, Longest, ItemsOf, Sequences.Flatten;
    var items := SortShort(ItemsOf(lens));
    SortedItems(lens);
    SinglesOk(items, k, Longest(lens));
    StatesHeld(Singles(items), k);
  }

  lemma {:induction false} InitialHeapOk(lens: seq<nat>, k: nat, equalSize: bool)
    requires k >= 1 && (equalSize ==> |lens| % k == 0)
    ensures HeapOk(InitialHeap(lens, k, equalSize), k, SpreadBound(lens, k, equalSize), equalSize)
    ensures Held(InitialHeap(lens, k, equalSize)) == multiset(ItemsOf(lens))
    ensures lens != [] ==> InitialHeap(lens, k, equalSize) != []
  {
    hide InitialHeap, SpreadBound, HeapOk, Held;
    if equalSize { InitialBlocksOk(lens, k); } else { InitialSinglesOk(lens, k); }
  }

  lemma {:induction false} BlocksOk(items: seq<Item>, k: nat)
    requires k >= 1 && |items| % k == 0 && Ascending(items)
    ensures HeapOk(StatesOf(Blocks(items, |items|, k), k), k, WidestBlock(items, |items|, k), true)
    ensures Flatten(Blocks(items, |items|, k)) == items
    ensures items != [] ==> Blocks(items, |items|, k) != []
  {
    var groups, bound := Blocks(items, |items|, k), WidestBlock(items, |items|, k);
    BlocksWithin(items, |items|, k);
    AllBlocks(items, k);
    forall g | 0 <= g < |groups| ensures StateOk(InitialState(groups[g], k), k, bound, true) {
      BlockOk(groups[g], k, bound);
    }
  }

  lemma {:induction false} SinglesOk(items: seq<Item>, k: nat, bound: int)
    requires k >= 1 && forall i :: 0 <= i < |items| ==> items[i].len <= bound
    ensures HeapOk(StatesOf(Singles(items), k), k, bound, false)
    ensures Flatten(Singles(items)) == items
  {
    SinglesFlatten(items);
    forall i | 0 <= i < |items| ensures StateOk(InitialState([items[i]], k), k, bound, false) {
      SingleOk(items[i], k, bound);
    }
  }

  // ----- one round: pop two states, push their merge

  function Remove(heap: Heap, i: nat): (r: Heap)
    requires i < |heap|
    ensures |r| == |heap| - 1
  {
    heap[..i] + heap[i + 1..]
  }

  predicate SameSize(heap: Heap, k: nat) {
    forall i :: 0 <= i < |heap| ==> |heap[i]| == k
  }

  /** Pop position i, then position j of what is left, and push the merge of the two. */
  function Round(heap: Heap, k: nat, i: nat, j: nat): (r: Heap)
    requires SameSize(heap, k) && i < |heap| && j < |heap| - 1
    ensures SameSize(r, k) && |r| == |heap| - 1
  {
    var rest := Remove(heap, i);
    Remove(rest, j) + [MergeStates(heap[i], rest[j])]
  }

  lemma {:induction false} RemoveHeld(heap: Heap, i: nat)
    requires i < |heap|
    ensures Held(heap) == Held(Remove(heap, i)) + Contents(heap[i])
  {
    if i == 0 {
      assert Remove(heap, 0) == heap[1..];
    } else {
      var rest := Remove(heap[1..], i - 1);
      RemoveHeld(heap[1..], i - 1);
      assert Remove(heap, i) == [heap[0]] + rest;
      HeldPrepend(heap[0], rest);
      Regroup(Contents(heap[0]), Held(rest), Contents(heap[i]));
    }
  }

  lemma {:induction false} Regroup<T>(a: multiset<T>, b: multiset<T>, c: multiset<T>)
    ensures a + (b + c) == (a + b) + c
  {
  }

  lemma {:induction false} HeldPrepend(s: StateVal, heap: Heap)
    ensures Held([s] + heap) == Contents(s) + Held(heap)
  {
    assert ([s] + heap)[1..] == heap;
  }

  lemma {:induction false} HeldPush(heap: Heap, s: StateVal)
    ensures Held(heap + [s]) == Held(heap) + Contents(s)
  {
    HeldAppend(heap, [s]);
    assert Held([s]) == Contents(s) + Held([]);
  }

  lemma {:induction false} RoundHeld(heap: Heap, k: nat, i: nat, j: nat)
    requires SameSize(heap, k) && i < |heap| && j < |heap| - 1
    requires Contents(MergeStates(heap[i], Remove(heap, i)[j])) == Contents(heap[i]) + Contents(Remove(heap, i)[j])
    ensures Held(Round(heap, k, i, j)) == Held(heap)
  {
    var rest := Remove(heap, i);
    var left := Remove(rest, j);
    RemoveHeld(heap, i);
    RemoveHeld(rest, j);
    HeldPush(left, MergeStates(heap[i], rest[j]));
  }

  /** The central invariant: a round, on any two states, keeps every heap property and loses no item. */
  lemma {:induction false} RoundKeeps(heap: Heap, k: nat, bound: int, equalSize: bool, i: nat, j: nat)
    requires HeapOk(heap, k, bound, equalSize) && i < |heap| && j < |heap| - 1
    ensures SameSize(heap, k)
    ensures HeapOk(Round(heap, k, i, j), k, bound, equalSize)
    ensures Held(Round(heap, k, i, j)) == Held(heap)
  {
    var next := Round(heap, k, i, j);
    MergeKeeps(heap[i], Remove(heap, i)[j], k, bound, equalSize);
    RoundHeld(heap, k, i, j);
    forall t | 0 <= t < |next| ensures StateOk(next[t], k, bound, equalSize) {
      if t < |next| - 1 { var u := RoundOrigin(heap, k, i, j, t); }
    }
  }

  /** Only the last state of the next heap is new. */
  lemma {:induction false} RoundOrigin(heap: Heap, k: nat, i: nat, j: nat, t: nat) returns (u: nat)
    requires SameSize(heap, k) && i < |heap| && j < |heap| - 1 && t < |heap| - 2
    ensures u < |heap| && Round(heap, k, i, j)[t] == heap[u]
  {
    var rest := Remove(heap, i);
    var v := if t < j then t else t + 1;
    u := if v < i then v else v + 1;
    RemoveAt(rest, j, t);
    RemoveAt(heap, i, v);
  }

  lemma {:induction false} RemoveAt(heap: Heap, i: nat, t: nat)
    requires i < |heap| && t < |heap| - 1
    ensures Remove(heap, i)[t] == heap[if t < i then t else t + 1]
  {
  }

  lemma {:induction false} MergeKeeps(a: StateVal, b: StateVal, k: nat, bound: int, equalSize: bool)
    requires StateOk(a, k, bound, equalSize) && StateOk(b, k, bound, equalSize)
    ensures StateOk(MergeStates(a, b), k, bound, equalSize)
    ensures Contents(MergeStates(a, b)) == Contents(a) + Contents(b)
  {
    MergeWellFormed(a, b, k);
    MergeSpread(a, b, k);
    if equalSize { MergeEven(a, b, |a[0].items|, |b[0].items|); }
  }

  /** A run pops any two states in each round. */
  ghost predicate IsRun(run: seq<Heap>, k: nat) {
    && (forall t :: 0 <= t < |run| ==> SameSize(run[t], k))
    && forall t :: 0 <= t < |run| - 1 ==> Follows(run[t], run[t + 1], k)
  }

  ghost predicate Follows(heap: Heap, next: Heap, k: nat)
    requires SameSize(heap, k)
  {
    exists i, j :: IsRound(heap, next, k, i, j)
  }

  ghost predicate IsRound(heap: Heap, next: Heap, k: nat, i: nat, j: nat)
    requires SameSize(heap, k)
  {
    i < |heap| && j < |heap| - 1 && next == Round(heap, k, i, j)
  }

  /** Safety over whole runs, for any order of the pops. */
  lemma {:induction false} RunSafe(run: seq<Heap>, lens: seq<nat>, k: nat, equalSize: bool, t: nat)
    requires k >= 1 && (equalSize ==> |lens| % k == 0)
    requires IsRun(run, k) && t < |run|
    requires run[0] == InitialHeap(lens, k, equalSize)
    ensures HeapOk(run[t], k, SpreadBound(lens, k, equalSize), equalSize)
    ensures Held(run[t]) == multiset(ItemsOf(lens))
  {
    hide HeapOk, Held, InitialHeap, SpreadBound, Round, SameSize;
    InitialHeapOk(lens, k, equalSize);
    if t > 0 {
      RunSafe(run, lens, k, equalSize, t - 1);
      assert Follows(run[t - 1], run[t], k);
      var i, j :| IsRound(run[t - 1], run[t], k, i, j);
      RoundKeeps(run[t - 1], k, SpreadBound(lens, k, equalSize), equalSize, i, j);
    }
  }

  // ----- the heap's own order: always pop the least state

  /** The position of the least state from position i on: of equals, the first. */
  function LeastFrom(heap: Heap, k: nat, i: nat): (r: nat)
    requires i < |heap| && k >= 1 && SameSize(heap, k)
    ensures i <= r < |heap|
    decreases |heap| - i
  {
    if i == |heap| - 1 then i
    else
      var m := LeastFrom(heap, k, i + 1);
      if StateLess(heap[m], heap[i]) then m else i
  }

  function LeastIndex(heap: Heap, k: nat): (r: nat)
    requires heap != [] && k >= 1 && SameSize(heap, k)
    ensures r < |heap|
  {
    LeastFrom(heap, k, 0)
  }

  lemma {:induction false} LeastFromIsLeast(heap: Heap, k: nat, i: nat)
    requires i < |heap| && k >= 1 && SameSize(heap, k)
    ensures forall j :: i <= j < |heap| ==> !StateLess(heap[j], heap[LeastFrom(heap, k, i)])
    decreases |heap| - i
  {
    LeastSelf(heap[i]);
    if i < |heap| - 1 {
      LeastFromIsLeast(heap, k, i + 1);
      var m := LeastFrom(heap, k, i + 1);
      SetTrichotomy(heap[m][0], heap[i][0]);
      forall j | i < j < |heap| ensures !StateLess(heap[j], heap[LeastFrom(heap, k, i)]) {
        if !StateLess(heap[m], heap[i]) { StateTransitive(heap[i], heap[m], heap[j]); }
      }
    }
  }

  /** The popped state has the largest spread of the heap, and among those with that spread the largest first set. */
  lemma {:induction false} LargestSpreadFirst(heap: Heap, k: nat, j: nat)
    requires heap != [] && k >= 1 && SameSize(heap, k) && j < |heap|
    ensures PoppedFirst(heap[LeastIndex(heap, k)], heap[j])
  {
    hide StateLess, PoppedFirst;
    LeastFromIsLeast(heap, k, 0);
    NotGreaterPopsFirst(heap[LeastIndex(heap, k)], heap[j]);
  }

  lemma {:induction false} LeastSelf(s: StateVal)
    requires s != []
    ensures !StateLess(s, s)
  {
    SetTrichotomy(s[0], s[0]);
  }

  /** In every reachable heap the least state is the only least one, so the layout of the heap is irrelevant. */
  lemma {:induction false} LeastIsUnique(heap: Heap, k: nat, bound: int, equalSize: bool, i: nat)
    requires HeapOk(heap, k, bound, equalSize) && heap != [] && k >= 1
    requires forall x :: Held(heap)[x] <= 1
    requires i < |heap|
    ensures SameSize(heap, k)
    ensures i != LeastIndex(heap, k) ==> StateLess(heap[LeastIndex(heap, k)], heap[i])
  {
    var m := LeastIndex(heap, k);
    LeastFromIsLeast(heap, k, 0);
    if i != m {
      HeldDisjoint(heap, m, i);
      NoTies(heap[m], heap[i], k);
    }
  }

  lemma {:induction false} HeldDisjoint(heap: Heap, i: nat, j: nat)
    requires i < |heap| && j < |heap| && i != j
    requires forall x :: Held(heap)[x] <= 1
    ensures Contents(heap[i]) !! Contents(heap[j])
  {
    var rest := Remove(heap, i);
    var j' := if j < i then j else j - 1;
    assert rest[j'] == heap[j];
    var others := Held(Remove(rest, j'));
    assert Held(heap) == (others + Contents(heap[j])) + Contents(heap[i]) by {
      RemoveHeld(heap, i);
      RemoveHeld(rest, j');
    }
    forall x ensures x !in Contents(heap[i]) || x !in Contents(heap[j]) {
      assert Held(heap)[x] == others[x] + Contents(heap[j])[x] + Contents(heap[i])[x];
    }
  }

  /** A turn of the loop: pop the least state, pop the least of the others, push their merge. */
  function LeastRound(heap: Heap, k: nat): (r: Heap)
    requires |heap| > 1 && k >= 1 && SameSize(heap, k)
    ensures SameSize(r, k) && |r| == |heap| - 1
  {
    var i := LeastIndex(heap, k);
    Round(heap, k, i, LeastIndex(Remove(heap, i), k))
  }

  /** Positions of the two states that are popped: of the whole heap, and of what is left of it. */
  ghost predicate PopsLargest(heap: Heap, k: nat, i: nat, j: nat)
    requires k >= 1 && SameSize(heap, k)
  {
    && i < |heap| && j < |heap| - 1
    && (forall u :: 0 <= u < |heap| ==> PoppedFirst(heap[i], heap[u]))
    && forall u :: 0 <= u < |heap| - 1 ==> PoppedFirst(Remove(heap, i)[j], Remove(heap, i)[u])
  }

  /** A turn of the loop merges the state that is popped first with the one that is popped first of the rest. */
  lemma {:induction false} RoundOfLargest(heap: Heap, k: nat) returns (i: nat, j: nat)
    requires |heap| > 1 && k >= 1 && SameSize(heap, k)
    ensures PopsLargest(heap, k, i, j) && LeastRound(heap, k) == Round(heap, k, i, j)
  {
    hide PoppedFirst;
    i := LeastIndex(heap, k);
    var rest := Remove(heap, i);
    j := LeastIndex(rest, k);
    forall u | 0 <= u < |heap| ensures PoppedFirst(heap[i], heap[u]) { LargestSpreadFirst(heap, k, u); }
    forall u | 0 <= u < |rest| ensures PoppedFirst(rest[j], rest[u]) { LargestSpreadFirst(rest, k, u); }
  }

  /** The next heap is a round on the two states that are popped first. */
  ghost predicate MergesLargest(heap: Heap, k: nat, next: Heap) {
    k >= 1 && SameSize(heap, k) && exists i, j :: PopsLargest(heap, k, i, j) && next == Round(heap, k, i, j)
  }

  lemma {:induction false} LeastRoundMerges(heap: Heap, k: nat)
    requires |heap| > 1 && k >= 1 && SameSize(heap, k)
    ensures MergesLargest(heap, k, LeastRound(heap, k))
  {
    hide PopsLargest, LeastRound;
    var i, j := RoundOfLargest(heap, k);
  }

  function Reduce(heap: Heap, k: nat): (r: StateVal)
    requires heap != [] && k >= 1 && SameSize(heap, k)
    ensures |r| == k
    decreases |heap|
  {
    if |heap| == 1 then heap[0] else Reduce(LeastRound(heap, k), k)
  }

  lemma {:induction false} ReduceKeeps(heap: Heap, k: nat, bound: int, equalSize: bool)
    requires HeapOk(heap, k, bound, equalSize) && heap != [] && k >= 1
    ensures SameSize(heap, k)
    ensures StateOk(Reduce(heap, k), k, bound, equalSize)
    ensures Contents(Reduce(heap, k)) == Held(heap)
    decreases |heap|
  {
    if |heap| == 1 {
      assert Held(heap) == Contents(heap[0]) + Held([]);
    } else {
      var i := LeastIndex(heap, k);
      RoundKeeps(heap, k, bound, equalSize, i, LeastIndex(Remove(heap, i), k));
      ReduceKeeps(LeastRound(heap, k), k, bound, equalSize);
    }
  }
}
