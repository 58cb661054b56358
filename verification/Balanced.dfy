/**
 The partitions that the reduction yields: which indices each part holds, how heavy each part
 is, and the theorems about them for all lengths and all part counts.
 */
module Balanced {
  import opened Sequences
  import opened Differencing
  import opened Reduction
  import opened Sorting

  // ----- parts

  predicate InRange(part: seq<nat>, n: nat) {
    forall i :: 0 <= i < |part| ==> part[i] < n
  }

  predicate AllInRange(parts: seq<seq<nat>>, n: nat) {
    forall p :: 0 <= p < |parts| ==> InRange(parts[p], n)
  }

  /** The total length of the sequences in one part. */
  function Load(lens: seq<nat>, part: seq<nat>): nat
    requires InRange(part, |lens|)
  {
    if part == [] then 0 else lens[part[0]] + Load(lens, part[1..])
  }

  function Loads(lens: seq<nat>, parts: seq<seq<nat>>): (r: seq<int>)
    requires AllInRange(parts, |lens|)
    ensures |r| == |parts| && forall p :: 0 <= p < |parts| ==> r[p] == Load(lens, parts[p])
  {
    seq(|parts|, p requires 0 <= p < |parts| => Load(lens, parts[p]))
  }

  /** k non-empty parts that together hold every index exactly once. */
  ghost predicate ExactPartition(parts: seq<seq<nat>>, n: nat, k: nat) {
    && |parts| == k
    && IsPermutation(Flatten(parts), n)
    && (forall p :: 0 <= p < k ==> parts[p] != [])
  }

  /** No part is heavier than another by more than the bound. */
  ghost predicate WithinSpread(lens: seq<nat>, parts: seq<seq<nat>>, bound: int) {
    && AllInRange(parts, |lens|)
    && forall p, q :: 0 <= p < |parts| && 0 <= q < |parts| ==> Load(lens, parts[p]) - Load(lens, parts[q]) <= bound
  }

  /** The parts come in the order of their loads, the heaviest first. */
  ghost predicate HeaviestFirst(lens: seq<nat>, parts: seq<seq<nat>>) {
    && AllInRange(parts, |lens|)
    && forall p, q :: 0 <= p < q < |parts| ==> Load(lens, parts[p]) >= Load(lens, parts[q])
  }

  ghost predicate EqualSizes(parts: seq<seq<nat>>, n: nat) {
    forall p :: 0 <= p < |parts| ==> |parts[p]| * |parts| == n
  }

  // ----- rearranging a part

  lemma {:induction false} LoadAppend(lens: seq<nat>, a: seq<nat>, b: seq<nat>)
    requires InRange(a, |lens|) && InRange(b, |lens|)
    ensures InRange(a + b, |lens|)
    ensures Load(lens, a + b) == Load(lens, a) + Load(lens, b)
  {
    if a == [] {
      assert a + b == b;
    } else {
      assert (a + b)[1..] == a[1..] + b;
      LoadAppend(lens, a[1..], b);
    }
  }

  /** Removing the first occurrence of the head of one arrangement from another. */
  lemma {:induction false} Extract<T>(a: seq<T>, b: seq<T>) returns (i: nat)
    requires a != [] && multiset(a) == multiset(b)
    ensures i < |b| && b[i] == a[0]
    ensures multiset(a[1..]) == multiset(b[..i] + b[i + 1..])
    ensures b == b[..i] + [a[0]] + b[i + 1..]
  {
    assert a[0] in multiset(a);
    i :| i < |b| && b[i] == a[0];
    assert multiset(b) == multiset(b[..i] + b[i + 1..]) + multiset{b[i]} by { assert b == b[..i] + [b[i]] + b[i + 1..]; }
    assert multiset(a) == multiset{a[0]} + multiset(a[1..]) by { assert a == [a[0]] + a[1..]; }
    assert multiset(a[1..]) == multiset(a) - multiset{a[0]};
    assert multiset(b[..i] + b[i + 1..]) == multiset(b) - multiset{a[0]};
  }

  lemma {:induction false} LoadWithout(lens: seq<nat>, b: seq<nat>, i: nat)
    requires i < |b| && InRange(b, |lens|)
    ensures InRange(b[..i] + b[i + 1..], |lens|)
    ensures Load(lens, b) == lens[b[i]] + Load(lens, b[..i] + b[i + 1..])
  {
    LoadAppend(lens, b[..i], b[i + 1..]);
    LoadAppend(lens, b[..i], b[i..]);
    assert b == b[..i] + b[i..];
    assert b[i..][1..] == b[i + 1..];
  }

  lemma {:induction false} LoadPermutation(lens: seq<nat>, a: seq<nat>, b: seq<nat>)
    requires multiset(a) == multiset(b) && InRange(a, |lens|)
    ensures InRange(b, |lens|)
    ensures Load(lens, a) == Load(lens, b)
  {
    if a == [] {
      assert |b| == |multiset(b)| == 0;
    } else {
      var i := Extract(a, b);
      forall t | 0 <= t < |b| ensures b[t] < |lens| {
        assert b[t] in multiset(a);
      }
      LoadPermutation(lens, a[1..], b[..i] + b[i + 1..]);
      LoadWithout(lens, b, i);
    }
  }

  lemma {:induction false} MapPermutation<A, B>(f: A -> B, a: seq<A>, b: seq<A>)
    requires multiset(a) == multiset(b)
    ensures multiset(Map(f, a)) == multiset(Map(f, b))
  {
    if a == [] {
      assert |b| == |multiset(b)| == 0;
    } else {
      var i := Extract(a, b);
      var rest := b[..i] + b[i + 1..];
      MapPermutation(f, a[1..], rest);
      assert Map(f, a) == [f(a[0])] + Map(f, a[1..]);
      assert Map(f, b) == Map(f, rest)[..i] + [f(a[0])] + Map(f, rest)[i..];
      assert Map(f, rest) == Map(f, rest)[..i] + Map(f, rest)[i..];
    }
  }

  // ----- sorted(partition)

  predicate Increasing(s: seq<nat>) {
    forall i, j :: 0 <= i < j < |s| ==> s[i] <= s[j]
  }

  function LowerFirst(): (nat, nat) -> bool { (a: nat, b: nat) => a < b }

  function SortIndices(s: seq<nat>): (r: seq<nat>)
    ensures multiset(r) == multiset(s)
    ensures |r| == |s|
  {
    SortBy(LowerFirst(), s)
  }

  lemma {:induction false} SortIncreasing(s: seq<nat>)
    ensures Increasing(SortIndices(s))
  {
    hide SortBy;
    SortOrdered(LowerFirst(), s);
  }

  function SortParts(parts: seq<seq<nat>>): (r: seq<seq<nat>>)
    ensures |r| == |parts|
    ensures forall p :: 0 <= p < |parts| ==> r[p] == SortIndices(parts[p])
  {
    seq(|parts|, p requires 0 <= p < |parts| => SortIndices(parts[p]))
  }

  lemma {:induction false} SortPartsFlatten(parts: seq<seq<nat>>)
    ensures multiset(Flatten(SortParts(parts))) == multiset(Flatten(parts))
  {
    if parts != [] {
      SortPartsFlatten(parts[1..]);
      assert SortParts(parts)[1..] == SortParts(parts[1..]);
    }
  }

  /** Sorting inside each part keeps exactness, loads and sizes. */
  lemma {:induction false} SortPartsKeeps(lens: seq<nat>, parts: seq<seq<nat>>, k: nat, bound: int)
    requires ExactPartition(parts, |lens|, k) && WithinSpread(lens, parts, bound)
    ensures ExactPartition(SortParts(parts), |lens|, k)
    ensures WithinSpread(lens, SortParts(parts), bound)
    ensures HeaviestFirst(lens, parts) ==> HeaviestFirst(lens, SortParts(parts))
    ensures EqualSizes(parts, |lens|) ==> EqualSizes(SortParts(parts), |lens|)
  {
    SortPartsFlatten(parts);
    forall p | 0 <= p < k
      ensures InRange(SortParts(parts)[p], |lens|)
      ensures Load(lens, SortParts(parts)[p]) == Load(lens, parts[p])
    {
      LoadPermutation(lens, parts[p], SortIndices(parts[p]));
    }
  }

  // ----- reading the parts off a state

  function IndexOf(item: Item): nat { item.idx }

  function Indices(s: StateVal): (r: seq<seq<nat>>)
    ensures |r| == |s|
    ensures forall i :: 0 <= i < |s| ==> r[i] == Map(IndexOf, s[i].items)
  {
    seq(|s|, i requires 0 <= i < |s| => Map(IndexOf, s[i].items))
  }

  function ItemLists(s: StateVal): (r: seq<seq<Item>>)
    ensures |r| == |s|
    ensures forall i :: 0 <= i < |s| ==> r[i] == s[i].items
  {
    seq(|s|, i requires 0 <= i < |s| => s[i].items)
  }

  lemma {:induction false} ContentsFlatten(s: StateVal)
    ensures Contents(s) == multiset(Flatten(ItemLists(s)))
  {
    if s != [] {
      ContentsFlatten(s[1..]);
      assert ItemLists(s)[1..] == ItemLists(s[1..]);
    }
  }

  lemma {:induction false} ContentsMember(s: StateVal, p: nat, i: nat)
    requires p < |s| && i < |s[p].items|
    ensures s[p].items[i] in Contents(s)
  {
    if p > 0 { ContentsMember(s[1..], p - 1, i); }
  }

  /** A state holding all items is an arrangement of all indices. */
  lemma {:induction false} IndicesExact(s: StateVal, lens: seq<nat>)
    requires Contents(s) == multiset(ItemsOf(lens))
    ensures IsPermutation(Flatten(Indices(s)), |lens|)
  {
    ContentsFlatten(s);
    MapPermutation(IndexOf, Flatten(ItemLists(s)), ItemsOf(lens));
    FlattenMap(IndexOf, ItemLists(s));
    assert Map(p => Map(IndexOf, p), ItemLists(s)) == Indices(s);
    assert Map(IndexOf, ItemsOf(lens)) == Range(|lens|);
  }

  lemma {:induction false} TotalIsLoad(items: seq<Item>, lens: seq<nat>)
    requires forall i :: 0 <= i < |items| ==> items[i] in multiset(ItemsOf(lens))
    ensures InRange(Map(IndexOf, items), |lens|)
    ensures Total(items) == Load(lens, Map(IndexOf, items))
  {
    if items != [] {
      assert items[0] in ItemsOf(lens);
      assert Map(IndexOf, items)[1..] == Map(IndexOf, items[1..]);
      TotalIsLoad(items[1..], lens);
    }
  }

  /** What a state of the heap says about its parts once it holds all items. */
  lemma {:induction false} StateParts(s: StateVal, lens: seq<nat>, k: nat, bound: int, equalSize: bool)
    requires StateOk(s, k, bound, equalSize)
    requires Contents(s) == multiset(ItemsOf(lens)) && |lens| >= k
    ensures ExactPartition(Indices(s), |lens|, k)
    ensures WithinSpread(lens, Indices(s), bound) && HeaviestFirst(lens, Indices(s))
    ensures equalSize ==> EqualSizes(Indices(s), |lens|)
  {
    var parts := Indices(s);
    IndicesExact(s, lens);
    assert |Contents(s)| == |lens|;
    FilledIsPrefix(s);
    forall p | 0 <= p < k ensures InRange(parts[p], |lens|) && Load(lens, parts[p]) == s[p].sum {
      forall i | 0 <= i < |s[p].items| ensures s[p].items[i] in multiset(ItemsOf(lens)) {
        ContentsMember(s, p, i);
      }
      TotalIsLoad(s[p].items, lens);
    }
    forall p, q | 0 <= p < k && 0 <= q < k
      ensures Load(lens, parts[p]) - Load(lens, parts[q]) <= bound
      ensures p >= q ==> Load(lens, parts[p]) <= Load(lens, parts[q])
    {
      SpreadBoundsGaps(s, p, q);
    }
    if equalSize {
      EvenContents(s, |s[0].items|);
    }
  }

  lemma {:induction false} EvenContents(s: StateVal, m: nat)
    requires Even(s, m)
    ensures |Contents(s)| == m * |s|
  {
    if s != [] {
      var rest := s[1..];
      EvenContents(rest, m);
      assert |Contents(s)| == |s[0].items| + |Contents(rest)|;
      EvenStep(m, |rest|);
    }
  }

  lemma {:induction false} EvenStep(m: nat, n: nat)
    ensures m + m * n == m * (n + 1)
  {
  }

  // ----- the partitioner

  /** karmarkar_karp on inputs it accepts. */
  function Differenced(lens: seq<nat>, k: nat, equalSize: bool): (r: seq<seq<nat>>)
    requires lens != [] && k >= 1 && (equalSize ==> |lens| % k == 0)
    ensures |r| == k
  {
    InitialHeapOk(lens, k, equalSize);
    Indices(Reduce(InitialHeap(lens, k, equalSize), k))
  }

  /** Every index lands in exactly one part, no part is empty, and no two parts differ by more
      than the initial spread: the longest sequence, or the widest block in equal-size mode. The
      heaviest part comes first. */
  lemma {:induction false} DifferencedBalanced(lens: seq<nat>, k: nat, equalSize: bool)
    requires 1 <= k <= |lens| && (equalSize ==> |lens| % k == 0)
    ensures ExactPartition(Differenced(lens, k, equalSize), |lens|, k)
    ensures WithinSpread(lens, Differenced(lens, k, equalSize), SpreadBound(lens, k, equalSize))
    ensures HeaviestFirst(lens, Differenced(lens, k, equalSize))
    ensures equalSize ==> EqualSizes(Differenced(lens, k, equalSize), |lens|)
  {
    var heap, bound := InitialHeap(lens, k, equalSize), SpreadBound(lens, k, equalSize);
    InitialHeapOk(lens, k, equalSize);
    ReduceKeeps(heap, k, bound, equalSize);
    StateParts(Reduce(heap, k), lens, k, bound, equalSize);
  }

  /** The same for every order of the pops: any run that ends with one state. */
  lemma {:induction false} AnyOrderBalanced(run: seq<Heap>, lens: seq<nat>, k: nat, equalSize: bool)
    requires 1 <= k <= |lens| && (equalSize ==> |lens| % k == 0)
    requires run != [] && IsRun(run, k) && run[0] == InitialHeap(lens, k, equalSize)
    requires |run[|run| - 1]| == 1
    ensures ExactPartition(Indices(run[|run| - 1][0]), |lens|, k)
    ensures WithinSpread(lens, Indices(run[|run| - 1][0]), SpreadBound(lens, k, equalSize))
    ensures HeaviestFirst(lens, Indices(run[|run| - 1][0]))
    ensures equalSize ==> EqualSizes(Indices(run[|run| - 1][0]), |lens|)
  {
    var last := run[|run| - 1];
    RunSafe(run, lens, k, equalSize, |run| - 1);
    LastState(last, lens, k, SpreadBound(lens, k, equalSize), equalSize);
  }

  lemma {:induction false} LastState(heap: Heap, lens: seq<nat>, k: nat, bound: int, equalSize: bool)
    requires |heap| == 1 && HeapOk(heap, k, bound, equalSize)
    requires Held(heap) == multiset(ItemsOf(lens)) && |lens| >= k
    ensures ExactPartition(Indices(heap[0]), |lens|, k)
    ensures WithinSpread(lens, Indices(heap[0]), bound) && HeaviestFirst(lens, Indices(heap[0]))
    ensures equalSize ==> EqualSizes(Indices(heap[0]), |lens|)
  {
    assert Held(heap) == Contents(heap[0]) + Held([]);
    StateParts(heap[0], lens, k, bound, equalSize);
  }

  lemma {:induction false} HeldOnce(heap: Heap, lens: seq<nat>)
    requires Held(heap) == multiset(ItemsOf(lens))
    ensures forall x :: Held(heap)[x] <= 1
  {
    DistinctMultiset(ItemsOf(lens));
  }

  /** Initial items are pairwise different, so no item is ever held twice and pops are determined by the order on states. */
  lemma {:induction false} PopsAreDetermined(run: seq<Heap>, lens: seq<nat>, k: nat, equalSize: bool, t: nat, i: nat)
    requires k >= 1 && (equalSize ==> |lens| % k == 0)
    requires IsRun(run, k) && t < |run| && run[0] == InitialHeap(lens, k, equalSize)
    requires i < |run[t]|
    ensures i != LeastIndex(run[t], k) ==> StateLess(run[t][LeastIndex(run[t], k)], run[t][i])
    ensures PoppedFirst(run[t][LeastIndex(run[t], k)], run[t][i])
  {
    LargestSpreadFirst(run[t], k, i);
    RunSafe(run, lens, k, equalSize, t);
    HeldOnce(run[t], lens);
    LeastIsUnique(run[t], k, SpreadBound(lens, k, equalSize), equalSize, i);
  }
}
