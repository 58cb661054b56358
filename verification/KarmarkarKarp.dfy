/**
 The partitioner as it runs: sets and states are objects updated in place, the heap is a list
 of states. Each method is proved against the value functions of Differencing and Reduction.
 */
module KarmarkarKarp {
  import opened Sequences
  import opened Differencing
  import opened Reduction
  import opened Balanced
  import opened Sorting
  import Arithmetic

  class Set {
    var sum: int
    var items: seq<Item>

    constructor ()
      ensures View() == EMPTY_SET
    {
      sum, items := 0, [];
    }

    function View(): SetVal
      reads this
    {
      SetVal(sum, items)
    }

    method Add(idx: nat, val: nat)
      modifies this
      ensures View() == SetVal(old(sum) + val, old(items) + [Item(idx, val)])
    {
      items := items + [Item(idx, val)];
      sum := sum + val;
    }

    /** Takes over the items of another set, one by one. */
    method Merge(other: Set)
      requires other != this
      modifies this
      ensures View() == MergeSets(old(View()), other.View())
      ensures items == old(items) + other.items && sum == old(sum) + Total(other.items)
    {
      for i := 0 to |other.items|
        invariant items == old(items) + other.items[..i]
        invariant sum == old(sum) + Total(other.items[..i])
      {
        var item := other.items[i];
        items := items + [item];
        sum := sum + item.len;
        assert other.items[..i + 1] == other.items[..i] + [item];
        TotalAppend(other.items[..i], [item]);
      }
      assert other.items[..|other.items|] == other.items;
    }
  }

  function Views(sets: seq<Set>): (r: StateVal)
    reads sets
    ensures |r| == |sets| && forall i :: 0 <= i < |sets| ==> r[i] == sets[i].View()
  {
    seq(|sets|, i requires 0 <= i < |sets| reads sets => sets[i].View())
  }

  /** Python's sorted(..., reverse=True) on the objects. */
  function InsertObject(x: Set, rest: seq<Set>): (r: seq<Set>)
    reads x, rest
    ensures multiset(r) == multiset{x} + multiset(rest)
    ensures |r| == |rest| + 1
    ensures forall i :: 0 <= i < |r| ==> r[i] == x || r[i] in rest
  {
    if rest == [] then [x]
    else if SetLess(x.View(), rest[0].View()) then
      assert rest == [rest[0]] + rest[1..];
      [rest[0]] + InsertObject(x, rest[1..])
    else [x] + rest
  }

  function SortObjects(sets: seq<Set>): (r: seq<Set>)
    reads sets
    ensures multiset(r) == multiset(sets)
    ensures |r| == |sets|
    ensures forall i :: 0 <= i < |r| ==> r[i] in sets
  {
    if sets == [] then []
    else
      assert sets == [sets[0]] + sets[1..];
      InsertObject(sets[0], SortObjects(sets[1..]))
  }

  lemma {:induction false} InsertObjectViews(x: Set, rest: seq<Set>)
    ensures Views(InsertObject(x, rest)) == InsertBy(LargerFirst(), x.View(), Views(rest))
  {
    if rest != [] && SetLess(x.View(), rest[0].View()) {
      InsertObjectViews(x, rest[1..]);
      ViewsPrepend(rest[0], InsertObject(x, rest[1..]));
      assert Views(rest)[1..] == Views(rest[1..]);
    } else {
      ViewsPrepend(x, rest);
    }
  }

  lemma {:induction false} ViewsPrepend(x: Set, rest: seq<Set>)
    ensures Views([x] + rest) == [x.View()] + Views(rest)
  {
  }

  lemma {:induction false} SortObjectsViews(sets: seq<Set>)
    ensures Views(SortObjects(sets)) == SortDescending(Views(sets))
  {
    hide InsertObject, InsertBy;
    if sets != [] {
      SortObjectsViews(sets[1..]);
      InsertObjectViews(sets[0], SortObjects(sets[1..]));
      assert Views(sets)[1..] == Views(sets[1..]);
    }
  }

  lemma {:induction false} SortObjectsDistinct(sets: seq<Set>)
    requires Distinct(sets)
    ensures Distinct(SortObjects(sets))
  {
    var r := SortObjects(sets);
    DistinctMultiset(sets);
    forall i, j | 0 <= i < j < |r| ensures r[i] != r[j] {
      if r[i] == r[j] {
        TwiceInMultiset(r, i, j);
        assert false;
      }
    }
  }

  /** sorted(sets, reverse=True): the same objects, in decreasing order. */
  method Sorted(sets: seq<Set>) returns (r: seq<Set>)
    ensures Views(r) == SortDescending(Views(sets))
    ensures Distinct(sets) ==> Distinct(r)
    ensures forall i :: 0 <= i < |r| ==> r[i] in sets
  {
    r := SortObjects(sets);
    SortObjectsViews(sets);
    if Distinct(sets) { SortObjectsDistinct(sets); }
  }

  /** No object occurs on both sides. */
  ghost predicate Apart(mine: seq<Set>, theirs: seq<Set>) {
    forall s :: s in mine ==> s !in theirs
  }

  method MergeOpposed(mine: seq<Set>, theirs: seq<Set>)
    requires |mine| == |theirs| && Distinct(mine) && Apart(mine, theirs)
    modifies mine
    ensures Views(mine) == Opposed(old(Views(mine)), old(Views(theirs)))
  {
    var k := |mine|;
    for i := 0 to k
      invariant forall j :: 0 <= j < i ==>
        mine[j].View() == MergeSets(old(mine[j].View()), old(theirs[k - 1 - j].View()))
      invariant forall j :: i <= j < k ==> mine[j].View() == old(mine[j].View())
      invariant forall j :: 0 <= j < k ==> theirs[j].View() == old(theirs[j].View())
    {
      assert forall j :: 0 <= j < k ==> theirs[j] in theirs;
      assert mine[i] in mine;
      mine[i].Merge(theirs[k - 1 - i]);
    }
  }

  method MergedAndSorted(mine: seq<Set>, theirs: seq<Set>) returns (r: seq<Set>)
    requires |mine| == |theirs| && Distinct(mine) && Apart(mine, theirs)
    modifies mine
    ensures Views(r) == MergeStates(old(Views(mine)), old(Views(theirs)))
    ensures |r| == |mine| && Distinct(r) && forall i :: 0 <= i < |r| ==> r[i] in mine
  {
    MergeOpposed(mine, theirs);
    r := Sorted(mine);
  }

  /** k sets, the first of which receive one item each. */
  method NewSets(items: seq<Item>, k: nat) returns (sets: seq<Set>)
    requires |items| <= k
    ensures Distinct(sets) && forall i :: 0 <= i < |sets| ==> fresh(sets[i])
    ensures Views(sets) == Singletons(items, k)
  {
    sets := [];
    for i := 0 to k
      invariant |sets| == i && Distinct(sets)
      invariant forall j :: 0 <= j < i ==> fresh(sets[j]) && sets[j].View() == EMPTY_SET
    {
      var s := new Set();
      sets := sets + [s];
    }
    for i := 0 to |items|
      invariant |sets| == k && Distinct(sets)
      invariant forall j :: 0 <= j < k ==>
        fresh(sets[j]) && sets[j].View() == if j < i then SetVal(items[j].len, [items[j]]) else EMPTY_SET
    {
      sets[i].Add(items[i].idx, items[i].len);
    }
  }

  class State {
    const k: nat
    var sets: seq<Set>
    ghost var value: StateVal
    ghost const repr: set<object>

    ghost predicate Valid()
      reads this, repr
    {
      && |sets| == k > 0 && Distinct(sets)
      && this in repr && (forall i :: 0 <= i < k ==> sets[i] in repr)
      && value == Views(sets)
    }

    function View(): StateVal
      requires Valid()
      reads this, repr
      ensures View() == value
    {
      Views(sets)
    }

    /** One item, or k of them, each in a set of its own. */
    constructor (items: seq<Item>, k: nat)
      requires 0 < k && 1 <= |items| <= k
      ensures Valid() && this.k == k && fresh(repr)
      ensures value == InitialState(items, k)
    {
      var made := NewSets(items, k);
      var sorted := Sorted(made);
      this.k := k;
      this.sets := sorted;
      this.value := Views(sorted);
      this.repr := {this} + set i | 0 <= i < k :: made[i];
    }

    /** Merges set i of this state with set k-1-i of the other, then sorts again. */
    method Merge(other: State)
      requires Valid() && other.Valid() && other.k == k && repr !! other.repr
      modifies repr
      ensures Valid()
      ensures value == MergeStates(old(value), old(other.value))
    {
      hide MergeStates;
      var sorted := MergedAndSorted(sets, other.sets);
      sets, value := sorted, MergeStates(value, other.value);
      assert Views(sets) == Views(sorted);
    }

    method GetPartitions() returns (partitions: seq<seq<nat>>)
      requires Valid()
      ensures partitions == Indices(value)
    {
      partitions := [];
      for i := 0 to |sets|
        invariant |partitions| == i
        invariant forall j :: 0 <= j < i ==> partitions[j] == Map(IndexOf, sets[j].items)
      {
        var current := [];
        for t := 0 to |sets[i].items|
          invariant current == Map(IndexOf, sets[i].items)[..t]
        {
          current := current + [sets[i].items[t].idx];
        }
        partitions := partitions + [current];
      }
    }
  }

  // ----- the heap of state objects

  /** The objects that a heap is made of. */
  ghost function Footprint(heap: seq<State>): set<object> {
    set i, o | 0 <= i < |heap| && o in heap[i].repr :: o
  }

  ghost predicate Separate(heap: seq<State>, k: nat)
    reads heap, Footprint(heap)
  {
    && (forall i :: 0 <= i < |heap| ==> heap[i].Valid() && heap[i].k == k)
    && (forall i, j :: 0 <= i < j < |heap| ==> heap[i].repr !! heap[j].repr)
  }

  ghost function HeapView(heap: seq<State>): (r: Heap)
    reads heap
    ensures |r| == |heap| && forall i :: 0 <= i < |heap| ==> r[i] == heap[i].value
  {
    seq(|heap|, i requires 0 <= i < |heap| reads heap => heap[i].value)
  }

  function Without<T>(s: seq<T>, i: nat): (r: seq<T>)
    requires i < |s|
    ensures |r| == |s| - 1
    ensures forall t :: 0 <= t < |r| ==> r[t] == s[if t < i then t else t + 1]
  {
    s[..i] + s[i + 1..]
  }

  lemma {:induction false} WithoutSeparate(heap: seq<State>, i: nat, k: nat)
    requires Separate(heap, k) && i < |heap|
    ensures Separate(Without(heap, i), k)
    ensures Footprint(Without(heap, i)) <= Footprint(heap)
    ensures heap[i].repr <= Footprint(heap) && heap[i].repr !! Footprint(Without(heap, i))
    ensures HeapView(Without(heap, i)) == Remove(HeapView(heap), i)
  {
  }

  lemma {:induction false} PushSeparate(heap: seq<State>, s: State, k: nat)
    requires Separate(heap, k) && s.Valid() && s.k == k && s.repr !! Footprint(heap)
    ensures Separate(heap + [s], k)
    ensures Footprint(heap + [s]) == Footprint(heap) + s.repr
    ensures HeapView(heap + [s]) == HeapView(heap) + [s.value]
  {
    var next := heap + [s];
    forall i, j | 0 <= i < j < |next| ensures next[i].repr !! next[j].repr {
      if j == |heap| { assert forall o :: o in heap[i].repr ==> o in Footprint(heap); }
    }
    forall o ensures o in Footprint(next) <==> o in Footprint(heap) || o in s.repr {
      assert next[|heap|] == s && forall i :: 0 <= i < |heap| ==> next[i] == heap[i];
    }
  }

  method FindLeast(heap: seq<State>, k: nat) returns (m: nat)
    requires heap != [] && k >= 1 && Separate(heap, k)
    ensures SameSize(HeapView(heap), k) && m == LeastIndex(HeapView(heap), k)
    ensures m < |heap| && forall j :: 0 <= j < |heap| ==> PoppedFirst(heap[m].value, heap[j].value)
  {
    ghost var values := HeapView(heap);
    var n := |heap|;
    m := n - 1;
    for i := n - 1 downto 0
      invariant m == LeastFrom(values, k, i)
    {
      if !StateLess(heap[m].View(), heap[i].View()) { m := i; }
    }
    forall j | 0 <= j < |heap| ensures PoppedFirst(values[m], values[j]) {
      LargestSpreadFirst(values, k, j);
    }
  }

  /** heappop: takes out the least state. */
  method PopLeast(heap: seq<State>, k: nat) returns (least: State, rest: seq<State>, ghost index: nat)
    requires heap != [] && k >= 1 && Separate(heap, k)
    ensures SameSize(HeapView(heap), k) && index == LeastIndex(HeapView(heap), k)
    ensures HeapView(rest) == Remove(HeapView(heap), index)
    ensures least.value == HeapView(heap)[index]
    ensures least.Valid() && least.k == k && Separate(rest, k)
    ensures least.repr !! Footprint(rest) && least.repr + Footprint(rest) <= Footprint(heap)
  {
    var i := FindLeast(heap, k);
    WithoutSeparate(heap, i, k);
    least, rest, index := heap[i], Without(heap, i), i;
  }

  /** What karmarkar_karp returns or raises. */
  function DifferencingResult(lens: seq<nat>, k: int, equalSize: bool): Result<seq<seq<nat>>> {
    if equalSize && k == 0 then Err(DivisionByZero)
    else if equalSize && |lens| % k != 0 then Err(AssertionFailed)
    else if k <= 0 || lens == [] then Err(IndexOutOfRange)
    else Ok(Differenced(lens, k, equalSize))
  }

  /** The item lists of the equal-size mode: k consecutive items each. */
  method CollectBlocks(sorted: seq<Item>, k: nat) returns (groups: seq<seq<Item>>)
    requires k >= 1 && |sorted| % k == 0
    ensures groups == Blocks(sorted, |sorted|, k) && Fit(groups, k)
  {
    groups := [];
    var offset := 0;
    ghost var left := |sorted| / k;
    Arithmetic.ExactQuotient(|sorted|, k);
    while offset < |sorted|
      invariant offset <= |sorted| && |sorted| - offset == left * k
      invariant groups == Blocks(sorted, offset, k)
      decreases |sorted| - offset
    {
      Arithmetic.NextMultiple(|sorted| - offset, k, left);
      var items := [];
      for i := 0 to k
        invariant items == sorted[offset..offset + i]
      {
        items := items + [sorted[offset + i]];
      }
      groups := groups + [items];
      offset, left := offset + k, left - 1;
    }
  }

  method BuildHeap(groups: seq<seq<Item>>, k: nat) returns (heap: seq<State>)
    requires k >= 1 && Fit(groups, k)
    ensures Separate(heap, k) && forall i :: 0 <= i < |heap| ==> fresh(heap[i].repr)
    ensures HeapView(heap) == StatesOf(groups, k)
  {
    heap := [];
    for g := 0 to |groups|
      invariant |heap| == g && Separate(heap, k)
      invariant forall i :: 0 <= i < g ==> fresh(heap[i].repr) && heap[i].value == InitialState(groups[i], k)
    {
      heap := Push(heap, groups[g], k);
    }
  }

  /** heappush of a new state. */
  method Push(heap: seq<State>, items: seq<Item>, k: nat) returns (next: seq<State>)
    requires Separate(heap, k) && 1 <= |items| <= k
    ensures Separate(next, k) && |next| == |heap| + 1 && next[..|heap|] == heap
    ensures fresh(next[|heap|].repr) && next[|heap|].value == InitialState(items, k)
  {
    var s := new State(items, k);
    PushSeparate(heap, s, k);
    next := heap + [s];
  }

  method InitialStates(lens: seq<nat>, k: nat, equalSize: bool) returns (heap: seq<State>)
    requires k >= 1 && (equalSize ==> |lens| % k == 0)
    ensures Separate(heap, k) && forall i :: 0 <= i < |heap| ==> fresh(heap[i].repr)
    ensures HeapView(heap) == InitialHeap(lens, k, equalSize)
  {
    var sorted := SortShort(ItemsOf(lens));
    if equalSize {
      var blocks := CollectBlocks(sorted, k);
      heap := BuildHeap(blocks, k);
    } else {
      heap := BuildHeap(Singles(sorted), k);
    }
  }

  /** One turn of the loop: the two least states are popped and their merge is pushed. */
  method MergeLeast(heap: seq<State>, k: nat) returns (next: seq<State>)
    requires |heap| > 1 && k >= 1 && Separate(heap, k)
    modifies Footprint(heap)
    ensures Separate(next, k) && Footprint(next) <= Footprint(heap)
    ensures SameSize(old(HeapView(heap)), k) && HeapView(next) == LeastRound(old(HeapView(heap)), k)
    ensures MergesLargest(old(HeapView(heap)), k, HeapView(next))
  {
    hide MergesLargest;
    ghost var was := HeapView(heap);
    var state0, rest0, i := PopLeast(heap, k);
    var state1, rest1, j := PopLeast(rest0, k);
    next := PushMerge(rest1, state0, state1, k);
    LeastRoundMerges(was, k);
  }

  method PushMerge(heap: seq<State>, state0: State, state1: State, k: nat) returns (next: seq<State>)
    requires Separate(heap, k) && state0.Valid() && state0.k == k && state1.Valid() && state1.k == k
    requires state0.repr !! Footprint(heap) && state0.repr !! state1.repr
    modifies state0.repr
    ensures Separate(next, k) && Footprint(next) == Footprint(heap) + state0.repr
    ensures HeapView(next) == old(HeapView(heap)) + [MergeStates(old(state0.value), old(state1.value))]
  {
    forall i | 0 <= i < |heap| ensures heap[i] !in state0.repr && heap[i].repr !! state0.repr {
      assert heap[i] in Footprint(heap);
      assert forall o :: o in heap[i].repr ==> o in Footprint(heap);
    }
    state0.Merge(state1);
    PushSeparate(heap, state0, k);
    next := heap + [state0];
  }

  method ReduceHeap(heap: seq<State>, k: nat) returns (final: State)
    requires heap != [] && k >= 1 && Separate(heap, k)
    modifies Footprint(heap)
    ensures final.Valid()
    ensures SameSize(old(HeapView(heap)), k) && final.value == Reduce(old(HeapView(heap)), k)
  {
    var pq := heap;
    while |pq| > 1
      invariant pq != [] && Separate(pq, k) && Footprint(pq) <= Footprint(heap)
      invariant SameSize(HeapView(pq), k) && SameSize(old(HeapView(heap)), k)
      invariant Reduce(HeapView(pq), k) == Reduce(old(HeapView(heap)), k)
      decreases |pq|
    {
      pq := MergeLeast(pq, k);
    }
    final := pq[0];
  }

  method ReadOff(heap: seq<State>, ghost lens: seq<nat>, k: nat, ghost equalSize: bool) returns (partitions: seq<seq<nat>>)
    requires k >= 1 && lens != [] && heap != [] && (equalSize ==> |lens| % k == 0)
    requires Separate(heap, k) && HeapView(heap) == InitialHeap(lens, k, equalSize)
    modifies Footprint(heap)
    ensures partitions == Differenced(lens, k, equalSize)
  {
    var final := ReduceHeap(heap, k);
    partitions := final.GetPartitions();
  }

  lemma {:induction false} DifferencedEven(lens: seq<nat>, k: nat)
    requires 1 <= k <= |lens| && |lens| % k == 0
    ensures forall p :: 0 <= p < k ==> |Differenced(lens, k, true)[p]| * k == |lens|
  {
    DifferencedBalanced(lens, k, true);
  }

  lemma {:induction false} InitialHeapShape(lens: seq<nat>, k: nat, equalSize: bool)
    requires k >= 1 && (equalSize ==> |lens| % k == 0)
    ensures SameSize(InitialHeap(lens, k, equalSize), k)
    ensures InitialHeap(lens, k, equalSize) == [] <==> lens == []
  {
    InitialHeapOk(lens, k, equalSize);
  }

  /** karmarkar_karp. */
  method Partition(lens: seq<nat>, k: int, equalSize: bool) returns (r: Result<seq<seq<nat>>>)
    ensures r == DifferencingResult(lens, k, equalSize)
  {
    if equalSize && k == 0 { return Err(DivisionByZero); }
    if equalSize && |lens| % k != 0 { return Err(AssertionFailed); }
    if k <= 0 { return Err(IndexOutOfRange); }
    hide Separate, InitialHeap, Differenced, SameSize;
    var heap := InitialStates(lens, k, equalSize);
    InitialHeapShape(lens, k, equalSize);
    if heap == [] { return Err(IndexOutOfRange); }
    var partitions := ReadOff(heap, lens, k, equalSize);
    if equalSize {
      DifferencedEven(lens, k);
      var even := SameLengths(partitions, |lens|, k);
      if !even { return Err(AssertionFailed); }
    }
    r := Ok(partitions);
  }

  /** The check on the equal-size result. */
  method SameLengths(partitions: seq<seq<nat>>, n: nat, k: nat) returns (even: bool)
    ensures even <==> forall p :: 0 <= p < |partitions| ==> |partitions[p]| * k == n
  {
    for i := 0 to |partitions|
      invariant forall p :: 0 <= p < i ==> |partitions[p]| * k == n
    {
      if |partitions[i]| * k != n { return false; }
    }
    even := true;
  }
}
