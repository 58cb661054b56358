/** Greedy partitioning: each index goes to the lightest part so far. */
module Greedy {
  import opened Sequences
  import opened Reduction
  import opened Balanced
  import Arithmetic

  datatype Bins = Bins(parts: seq<seq<nat>>, sums: seq<int>)

  /** The first position with the least sum among the first `upto`. */
  function FirstMin(sums: seq<int>, upto: nat): (m: nat)
    requires 1 <= upto <= |sums|
    ensures m < upto && forall j :: 0 <= j < upto ==> sums[m] <= sums[j]
    ensures forall j :: 0 <= j < m ==> sums[m] < sums[j]
  {
    if upto == 1 then 0
    else
      var m := FirstMin(sums, upto - 1);
      if sums[upto - 1] < sums[m] then upto - 1 else m
  }

  /** The bins after the first n items. */
  function Filling(lens: seq<nat>, bias: nat, k: nat, n: nat): (b: Bins)
    requires k >= 1 && n <= |lens|
    ensures |b.parts| == |b.sums| == k
  {
    if n == 0 then Bins(seq(k, _ => []), seq(k, _ => 0))
    else
      Put(Filling(lens, bias, k, n - 1), n - 1, lens[n - 1] + bias)
  }

  /** Item i goes to the first lightest part. */
  function Put(b: Bins, i: nat, weight: nat): (r: Bins)
    requires |b.parts| == |b.sums| >= 1
    ensures |r.parts| == |r.sums| == |b.sums|
  {
    var m := FirstMin(b.sums, |b.sums|);
    Bins(b.parts[m := b.parts[m] + [i]], b.sums[m := b.sums[m] + weight])
  }

  /** Item n is appended to the first of the lightest parts so far, and nothing else changes. */
  lemma {:induction false} GoesToFirstLightest(lens: seq<nat>, bias: nat, k: nat, n: nat) returns (p: nat)
    requires k >= 1 && n < |lens|
    ensures var b, next := Filling(lens, bias, k, n), Filling(lens, bias, k, n + 1);
      && p < k
      && (forall q :: 0 <= q < k ==> b.sums[p] <= b.sums[q]) && (forall q :: 0 <= q < p ==> b.sums[p] < b.sums[q])
      && next.parts == b.parts[p := b.parts[p] + [n]] && next.sums == b.sums[p := b.sums[p] + lens[n] + bias]
  {
    var b := Filling(lens, bias, k, n);
    p := FirstMin(b.sums, |b.sums|);
  }

  predicate IncreasingBelow(part: seq<nat>, n: nat) {
    && (forall i :: 0 <= i < |part| ==> part[i] < n)
    && (forall i, j :: 0 <= i < j < |part| ==> part[i] < part[j])
  }

  lemma {:induction false} AppendIncreases(part: seq<nat>, n: nat)
    requires IncreasingBelow(part, n)
    ensures IncreasingBelow(part, n + 1) && IncreasingBelow(part + [n], n + 1)
  {
  }

  lemma {:induction false} NothingFilled(lens: seq<nat>, bias: nat, k: nat, p: nat)
    requires p < k
    ensures IncreasingBelow(Filling(lens, bias, k, 0).parts[p], 0)
  {
  }

  lemma {:induction false} PartStep(lens: seq<nat>, bias: nat, k: nat, n: nat, p: nat)
    requires p < k && n < |lens|
    ensures var before, after := Filling(lens, bias, k, n).parts[p], Filling(lens, bias, k, n + 1).parts[p];
      after == before || after == before + [n]
  {
    hide FirstMin;
  }

  /** Every part lists its indices in increasing order: that in which they were put there. */
  lemma {:induction false} FillingIncreases(lens: seq<nat>, bias: nat, k: nat, n: nat, p: nat)
    requires k >= 1 && n <= |lens| && p < k
    ensures IncreasingBelow(Filling(lens, bias, k, n).parts[p], n)
  {
    hide IncreasingBelow, Filling;
    if n == 0 {
      NothingFilled(lens, bias, k, p);
    } else {
      FillingIncreases(lens, bias, k, n - 1, p);
      PartStep(lens, bias, k, n - 1, p);
      AppendIncreases(Filling(lens, bias, k, n - 1).parts[p], n - 1);
    }
  }

  function Bias(lens: seq<nat>, equalSize: bool): nat {
    if equalSize then TotalLength(lens) + 1 else 0
  }

  function TotalLength(lens: seq<nat>): nat {
    SumNonNegative(lens);
    Sum(lens)
  }

  // ----- exactness

  lemma {:induction false} FlattenPut<T>(parts: seq<seq<T>>, m: nat, x: T)
    requires m < |parts|
    ensures multiset(Flatten(parts[m := parts[m] + [x]])) == multiset(Flatten(parts)) + multiset{x}
  {
    if m == 0 {
      assert parts[0 := parts[0] + [x]][1..] == parts[1..];
    } else {
      FlattenPut(parts[1..], m - 1, x);
      assert parts[m := parts[m] + [x]][1..] == parts[1..][m - 1 := parts[1..][m - 1] + [x]];
    }
  }

  lemma {:induction false} FlattenEmpty<T>(parts: seq<seq<T>>)
    requires forall p :: 0 <= p < |parts| ==> parts[p] == []
    ensures Flatten(parts) == []
  {
    if parts != [] { FlattenEmpty(parts[1..]); }
  }

  lemma {:induction false} RangePush(n: nat)
    ensures multiset(Range(n + 1)) == multiset(Range(n)) + multiset{n}
  {
    assert Range(n + 1) == Range(n) + [n];
  }

  lemma {:induction false} PutExact(b: Bins, i: nat, weight: nat)
    requires |b.parts| == |b.sums| >= 1 && IsPermutation(Flatten(b.parts), i)
    ensures IsPermutation(Flatten(Put(b, i, weight).parts), i + 1)
  {
    FlattenPut(b.parts, FirstMin(b.sums, |b.sums|), i);
    RangePush(i);
  }

  /** After n items the bins hold exactly the indices below n. */
  lemma {:induction false} FillingExact(lens: seq<nat>, bias: nat, k: nat, n: nat)
    requires k >= 1 && n <= |lens|
    ensures IsPermutation(Flatten(Filling(lens, bias, k, n).parts), n)
  {
    if n == 0 {
      FlattenEmpty(Filling(lens, bias, k, 0).parts);
    } else {
      FillingExact(lens, bias, k, n - 1);
      PutExact(Filling(lens, bias, k, n - 1), n - 1, lens[n - 1] + bias);
    }
  }

  // ----- balance

  /** Each running sum is the load of its part plus one bias per item. */
  ghost predicate SumsTrack(lens: seq<nat>, bias: nat, b: Bins) {
    && |b.parts| == |b.sums| && AllInRange(b.parts, |lens|)
    && forall p :: 0 <= p < |b.parts| ==> b.sums[p] == Load(lens, b.parts[p]) + bias * |b.parts[p]|
  }

  lemma {:induction false} PutTracks(lens: seq<nat>, bias: nat, b: Bins, i: nat)
    requires SumsTrack(lens, bias, b) && |b.parts| >= 1 && i < |lens|
    ensures SumsTrack(lens, bias, Put(b, i, lens[i] + bias))
  {
    var m := FirstMin(b.sums, |b.sums|);
    LoadAppend(lens, b.parts[m], [i]);
    assert Load(lens, [i]) == lens[i] + Load(lens, []);
    Arithmetic.Distribute(|b.parts[m]|, 1, bias);
  }

  lemma {:induction false} FillingTracks(lens: seq<nat>, bias: nat, k: nat, n: nat)
    requires k >= 1 && n <= |lens|
    ensures SumsTrack(lens, bias, Filling(lens, bias, k, n))
  {
    if n > 0 {
      FillingTracks(lens, bias, k, n - 1);
      PutTracks(lens, bias, Filling(lens, bias, k, n - 1), n - 1);
    }
  }

  ghost predicate Close(sums: seq<int>, bound: int) {
    forall p, q :: 0 <= p < |sums| && 0 <= q < |sums| ==> sums[p] - sums[q] <= bound
  }

  /** List scheduling: putting the next item on the lightest sum keeps the sums close. */
  lemma {:induction false} PutClose(b: Bins, i: nat, weight: nat, bound: nat)
    requires |b.parts| == |b.sums| >= 1 && weight <= bound && Close(b.sums, bound)
    ensures Close(Put(b, i, weight).sums, bound)
  {
  }

  lemma {:induction false} FillingClose(lens: seq<nat>, bias: nat, k: nat, n: nat)
    requires k >= 1 && n <= |lens|
    ensures Close(Filling(lens, bias, k, n).sums, bias + Longest(lens))
  {
    if n > 0 {
      FillingClose(lens, bias, k, n - 1);
      PutClose(Filling(lens, bias, k, n - 1), n - 1, lens[n - 1] + bias, bias + Longest(lens));
    }
  }

  lemma {:induction false} TotalLengthAt(lens: seq<nat>, i: nat)
    requires i < |lens|
    ensures TotalLength(lens) == TotalLength(lens[..i] + lens[i + 1..]) + lens[i]
  {
    assert lens == lens[..i] + [lens[i]] + lens[i + 1..];
    SumAppend(lens[..i] + [lens[i]], lens[i + 1..]);
    SumAppend(lens[..i], [lens[i]]);
    SumAppend(lens[..i], lens[i + 1..]);
  }

  /** No part weighs more than everything together. */
  lemma {:induction false} LoadAtMostTotal(lens: seq<nat>, parts: seq<seq<nat>>, n: nat, p: nat)
    requires p < |parts| && AllInRange(parts, |lens|) && IsPermutation(Flatten(parts), n) && n <= |lens|
    ensures Load(lens, parts[p]) <= TotalLength(lens)
  {
    FlattenInRange(parts, |lens|);
    LoadOfFlatten(lens, parts, p);
    RangeInRange(n, |lens|);
    LoadPermutation(lens, Flatten(parts), Range(n));
    LoadOfRange(lens, n);
  }

  lemma {:induction false} RangeInRange(n: nat, m: nat)
    requires n <= m
    ensures InRange(Range(n), m)
  {
  }

  lemma {:induction false} FlattenInRange(parts: seq<seq<nat>>, n: nat)
    requires AllInRange(parts, n)
    ensures InRange(Flatten(parts), n)
  {
    if parts != [] {
      FlattenInRange(parts[1..], n);
      assert InRange(parts[0], n);
    }
  }

  lemma {:induction false} LoadOfFlatten(lens: seq<nat>, parts: seq<seq<nat>>, p: nat)
    requires p < |parts| && AllInRange(parts, |lens|)
    ensures InRange(Flatten(parts), |lens|)
    ensures Load(lens, parts[p]) <= Load(lens, Flatten(parts))
  {
    FlattenInRange(parts, |lens|);
    FlattenInRange(parts[1..], |lens|);
    LoadAppend(lens, parts[0], Flatten(parts[1..]));
    if p > 0 { LoadOfFlatten(lens, parts[1..], p - 1); }
  }

  lemma {:induction false} LoadOfRange(lens: seq<nat>, n: nat)
    requires n <= |lens|
    ensures InRange(Range(n), |lens|)
    ensures Load(lens, Range(n)) == TotalLength(lens[..n]) <= TotalLength(lens)
  {
    RangeInRange(n, |lens|);
    if n == 0 {
    } else {
      RangeInRange(n - 1, |lens|);
      LoadOfRange(lens, n - 1);
      LoadAppend(lens, Range(n - 1), [n - 1]);
      assert Range(n) == Range(n - 1) + [n - 1];
      assert Load(lens, [n - 1]) == lens[n - 1] + Load(lens, []);
      TotalLengthAt(lens[..n], n - 1);
      assert lens[..n][..n - 1] + lens[..n][n..] == lens[..n - 1];
    }
    TotalLengthPrefix(lens, n);
  }

  lemma {:induction false} TotalLengthPrefix(lens: seq<nat>, n: nat)
    requires n <= |lens|
    ensures TotalLength(lens[..n]) <= TotalLength(lens)
  {
    assert lens == lens[..n] + lens[n..];
    SumAppend(lens[..n], lens[n..]);
    SumNonNegative(lens[n..]);
  }

  function Sizes(parts: seq<seq<nat>>): (r: seq<int>)
    ensures |r| == |parts| && forall p :: 0 <= p < |parts| ==> r[p] == |parts[p]|
  {
    seq(|parts|, p requires 0 <= p < |parts| => |parts[p]|)
  }

  /** A bias above every load makes the sums order by item count first. */
  lemma {:induction false} LightestHasFewest(lens: seq<nat>, bias: nat, b: Bins, m: nat, q: nat)
    requires SumsTrack(lens, bias, b) && m < |b.parts| && q < |b.parts|
    requires Load(lens, b.parts[q]) < bias && b.sums[m] <= b.sums[q]
    ensures |b.parts[m]| <= |b.parts[q]|
  {
    if |b.parts[m]| > |b.parts[q]| {
      Arithmetic.MulMonotone(|b.parts[q]| + 1, |b.parts[m]|, bias);
      Arithmetic.Distribute(|b.parts[q]|, 1, bias);
    }
  }

  lemma {:induction false} PutLevel(b: Bins, i: nat, weight: nat)
    requires |b.parts| == |b.sums| >= 1 && Close(Sizes(b.parts), 1)
    requires forall q :: 0 <= q < |b.parts| ==> |b.parts[FirstMin(b.sums, |b.sums|)]| <= |b.parts[q]|
    ensures Close(Sizes(Put(b, i, weight).parts), 1)
  {
    var m := FirstMin(b.sums, |b.sums|);
    assert Sizes(Put(b, i, weight).parts) == Sizes(b.parts)[m := Sizes(b.parts)[m] + 1];
    assert forall q :: 0 <= q < |b.parts| ==> Sizes(b.parts)[m] <= Sizes(b.parts)[q];
  }

  /** In equal-size mode the item counts never differ by more than one. */
  lemma {:induction false} FillingLevel(lens: seq<nat>, k: nat, n: nat)
    requires k >= 1 && n <= |lens|
    ensures Close(Sizes(Filling(lens, Bias(lens, true), k, n).parts), 1)
  {
    if n > 0 {
      var bias := Bias(lens, true);
      var b := Filling(lens, bias, k, n - 1);
      var m := FirstMin(b.sums, k);
      FillingLevel(lens, k, n - 1);
      forall q | 0 <= q < k ensures |b.parts[m]| <= |b.parts[q]| {
        FewestAtMinimum(lens, k, n - 1, m, q);
      }
      PutLevel(b, n - 1, lens[n - 1] + bias);
    }
  }

  lemma {:induction false} FewestAtMinimum(lens: seq<nat>, k: nat, n: nat, m: nat, q: nat)
    requires k >= 1 && n <= |lens| && m < k && q < k
    requires var b := Filling(lens, Bias(lens, true), k, n); b.sums[m] <= b.sums[q]
    ensures var b := Filling(lens, Bias(lens, true), k, n); |b.parts[m]| <= |b.parts[q]|
  {
    var bias := Bias(lens, true);
    var b := Filling(lens, bias, k, n);
    FillingTracks(lens, bias, k, n);
    FillingExact(lens, bias, k, n);
    LoadAtMostTotal(lens, b.parts, n, q);
    LightestHasFewest(lens, bias, b, m, q);
  }

  // ----- sizes

  lemma {:induction false} SizesSum(parts: seq<seq<nat>>)
    ensures Sum(Sizes(parts)) == |Flatten(parts)|
  {
    if parts != [] {
      SizesSum(parts[1..]);
      assert Sizes(parts)[1..] == Sizes(parts[1..]);
    }
  }

  lemma {:induction false} SumCeiling(s: seq<int>, high: int)
    requires forall i :: 0 <= i < |s| ==> s[i] <= high
    ensures Sum(s) <= |s| * high
  {
    if s != [] {
      SumCeiling(s[1..], high);
      Arithmetic.Distribute(1, |s| - 1, high);
    }
  }

  /** Level counts that add up to a multiple of the number of parts are all equal. */
  lemma {:induction false} LevelIsEqual(sizes: seq<int>, q: nat, p: nat)
    requires p < |sizes| && Sum(sizes) == |sizes| * q
    requires Close(sizes, 1)
    ensures sizes[p] == q
  {
    var k := |sizes|;
    if sizes[p] > q {
      RaiseOne(sizes, p, q);
    } else if sizes[p] < q {
      LowerOne(sizes, p, q);
    }
  }

  lemma {:induction false} RaiseOne(sizes: seq<int>, p: nat, low: int)
    requires p < |sizes| && low < sizes[p] && forall i :: 0 <= i < |sizes| ==> low <= sizes[i]
    ensures Sum(sizes) > |sizes| * low
  {
    SumUpdate(sizes, p, low);
    SumFloor(sizes[p := low], low);
  }

  lemma {:induction false} LowerOne(sizes: seq<int>, p: nat, high: int)
    requires p < |sizes| && sizes[p] < high && forall i :: 0 <= i < |sizes| ==> sizes[i] <= high
    ensures Sum(sizes) < |sizes| * high
  {
    SumUpdate(sizes, p, high);
    SumCeiling(sizes[p := high], high);
  }

  lemma {:induction false} FillingEqual(lens: seq<nat>, k: nat, q: nat)
    requires k >= 1 && |lens| == q * k
    ensures forall p :: 0 <= p < k ==> |Filling(lens, Bias(lens, true), k, |lens|).parts[p]| == q
  {
    var bias := Bias(lens, true);
    var parts := Filling(lens, bias, k, |lens|).parts;
    FillingExact(lens, bias, k, |lens|);
    PermutationFacts(Flatten(parts), |lens|);
    SizesSum(parts);
    FillingLevel(lens, k, |lens|);
    forall p | 0 <= p < k ensures |parts[p]| == q {
      LevelIsEqual(Sizes(parts), q, p);
    }
  }

  /** The assertion at the end of the equal-size mode fails exactly when k does not divide n. */
  lemma {:induction false} GreedyEqualSizes(lens: seq<nat>, k: nat)
    requires k >= 1
    ensures EqualSizes(Filling(lens, Bias(lens, true), k, |lens|).parts, |lens|) <==> |lens| % k == 0
  {
    var parts := Filling(lens, Bias(lens, true), k, |lens|).parts;
    if |lens| % k == 0 {
      Arithmetic.ExactQuotient(|lens|, k);
      FillingEqual(lens, k, |lens| / k);
    }
    if EqualSizes(parts, |lens|) {
      assert |parts[0]| * k == |lens|;
      Arithmetic.MultipleModulo(|parts[0]|, k);
    }
  }

  /** Without the bias the loads themselves stay within the longest sequence of each other. */
  lemma {:induction false} GreedyBalanced(lens: seq<nat>, k: nat)
    requires k >= 1
    ensures WithinSpread(lens, Filling(lens, 0, k, |lens|).parts, Longest(lens))
  {
    FillingTracks(lens, 0, k, |lens|);
    FillingClose(lens, 0, k, |lens|);
  }

  function GreedyResult(lens: seq<nat>, k: int, equalSize: bool): Result<seq<seq<nat>>> {
    if k <= 0 then (if lens == [] then Ok([]) else Err(TypeMismatch))
    else if equalSize && |lens| % k != 0 then Err(AssertionFailed)
    else Ok(Filling(lens, Bias(lens, equalSize), k, |lens|).parts)
  }

  /** greedy_partition. With no parts to choose from, the first index finds no minimum. */
  method GreedyPartition(lens: seq<nat>, k: int, equalSize: bool) returns (r: Result<seq<seq<nat>>>)
    ensures r == GreedyResult(lens, k, equalSize)
  {
    if k <= 0 {
      if lens == [] { return Ok([]); }
      return Err(TypeMismatch);
    }
    var parts := Fill(lens, Bias(lens, equalSize), k);
    if equalSize {
      GreedyEqualSizes(lens, k);
      for i := 0 to k
        invariant forall p :: 0 <= p < i ==> |parts[p]| * k == |lens|
      {
        if |parts[i]| * k != |lens| { return Err(AssertionFailed); }
      }
    }
    r := Ok(parts);
  }

  method Fill(lens: seq<nat>, bias: nat, k: nat) returns (parts: seq<seq<nat>>)
    requires k >= 1
    ensures parts == Filling(lens, bias, k, |lens|).parts
  {
    hide Put, FirstMin;
    var partitions := new seq<nat>[k](_ => []);
    var partitionSums := new int[k](_ => 0);
    ghost var empty := Filling(lens, bias, k, 0);
    assert partitions[..] == empty.parts && partitionSums[..] == empty.sums;
    for i := 0 to |lens|
      invariant Bins(partitions[..], partitionSums[..]) == Filling(lens, bias, k, i)
    {
      Place(partitions, partitionSums, i, lens[i] + bias);
    }
    parts := partitions[..];
  }

  method Place(partitions: array<seq<nat>>, partitionSums: array<int>, i: nat, weight: nat)
    requires partitions.Length == partitionSums.Length >= 1
    modifies partitions, partitionSums
    ensures Bins(partitions[..], partitionSums[..]) == Put(old(Bins(partitions[..], partitionSums[..])), i, weight)
  {
    var minIdx := FindMin(partitionSums);
    partitions[minIdx] := partitions[minIdx] + [i];
    partitionSums[minIdx] := partitionSums[minIdx] + weight;
  }

  method FindMin(sums: array<int>) returns (minIdx: nat)
    requires sums.Length >= 1
    ensures minIdx == FirstMin(sums[..], sums.Length)
  {
    minIdx := 0;
    for j := 1 to sums.Length
      invariant minIdx == FirstMin(sums[..], j)
    {
      if sums[j] < sums[minIdx] { minIdx := j; }
    }
  }
}
