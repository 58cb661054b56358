/** The public partitioner, with the checks it runs on its own result. */
module SeqlenBalancing {
  import opened Sequences
  import opened Reduction
  import opened Balanced
  import opened KarmarkarKarp

  predicate AllNonEmpty(parts: seq<seq<nat>>) {
    forall p :: 0 <= p < |parts| ==> parts[p] != []
  }

  function Members(parts: seq<seq<nat>>): set<nat> {
    set i | i in Flatten(parts)
  }

  function IndexSet(n: nat): set<nat> {
    set i | i in Range(n)
  }

  lemma {:induction false} NoMembers()
    ensures Members([]) == {}
  {
  }

  /** The three assertions on a partition, and sorting inside each part. The comparison of the
      index sets alone would let a repeated index through. */
  method CheckAndSort(partitions: seq<seq<nat>>, n: nat, k: int) returns (r: Result<seq<seq<nat>>>)
    ensures r == if |partitions| == k && AllNonEmpty(partitions) && Members(partitions) == IndexSet(n)
                 then Ok(SortParts(partitions)) else Err(AssertionFailed)
  {
    hide SortIndices, Members;
    NoMembers();
    if |partitions| != k { return Err(AssertionFailed); }
    var seen: set<nat> := {};
    var sorted := [];
    for i := 0 to |partitions|
      invariant seen == Members(partitions[..i])
      invariant AllNonEmpty(partitions[..i]) && sorted == SortParts(partitions[..i])
    {
      if |partitions[i]| == 0 { return Err(AssertionFailed); }
      seen := AddAll(seen, partitions[i]);
      MembersPush(partitions[..i], partitions[i]);
      assert partitions[..i + 1] == partitions[..i] + [partitions[i]];
      sorted := sorted + [SortIndices(partitions[i])];
    }
    assert partitions[..|partitions|] == partitions;
    if seen != IndexSet(n) { return Err(AssertionFailed); }
    r := Ok(sorted);
  }

  method AddAll(seen: set<nat>, part: seq<nat>) returns (r: set<nat>)
    ensures r == seen + set x | x in part
  {
    r := seen;
    for t := 0 to |part|
      invariant r == seen + set x | x in part[..t]
    {
      r := r + {part[t]};
    }
    assert part[..|part|] == part;
  }

  lemma {:induction false} MembersPush(parts: seq<seq<nat>>, part: seq<nat>)
    ensures Members(parts + [part]) == Members(parts) + set x | x in part
  {
    FlattenAppend(parts, [part]);
    assert Flatten([part]) == part + Flatten([]);
  }

  function BalancedResult(lens: seq<nat>, k: int, equalSize: bool): Result<seq<seq<nat>>> {
    if |lens| < k then Err(AssertionFailed)
    else match DifferencingResult(lens, k, equalSize)
      case Ok(parts) => Ok(SortParts(parts))
      case Err(e) => Err(e)
  }

  /** The inputs on which the partitioner answers at all. */
  predicate Accepted(n: nat, k: int, equalSize: bool) {
    1 <= k <= n && (equalSize ==> n % k == 0)
  }

  /** On every accepted input the answer is an exact partition into k non-empty, increasing
      parts, balanced up to the initial spread; on every other input there is no answer. */
  lemma {:induction false} BalancedResultIsBalanced(lens: seq<nat>, k: int, equalSize: bool)
    ensures BalancedResult(lens, k, equalSize).Ok? <==> Accepted(|lens|, k, equalSize)
    ensures Accepted(|lens|, k, equalSize) ==>
      var parts := BalancedResult(lens, k, equalSize).value;
      && ExactPartition(parts, |lens|, k)
      && (forall p :: 0 <= p < k ==> Increasing(parts[p]))
      && WithinSpread(lens, parts, SpreadBound(lens, k, equalSize)) && HeaviestFirst(lens, parts)
      && (equalSize ==> EqualSizes(parts, |lens|))
  {
    if Accepted(|lens|, k, equalSize) {
      var parts := Differenced(lens, k, equalSize);
      DifferencedBalanced(lens, k, equalSize);
      SortPartsKeeps(lens, parts, k, SpreadBound(lens, k, equalSize));
      forall p | 0 <= p < k ensures Increasing(SortParts(parts)[p]) {
        SortIncreasing(parts[p]);
      }
    }
  }

  /** Why there is no answer: fewer items than parts, and a number of items that k does not divide, fail an
      assertion; equal sizes for no parts divide by zero; and any other k below one leaves nothing to index. */
  lemma {:induction false} RefusedWith(lens: seq<nat>, k: int, equalSize: bool)
    requires !Accepted(|lens|, k, equalSize)
    ensures BalancedResult(lens, k, equalSize) == Err(
      if |lens| >= k && equalSize && k == 0 then DivisionByZero
      else if |lens| >= k && (!equalSize || |lens| % k == 0) then IndexOutOfRange
      else AssertionFailed)
  {
  }

  /** get_seqlen_balanced_partitions: none of the assertions on the result can fail. */
  method GetBalancedPartitions(lens: seq<nat>, k: int, equalSize: bool) returns (r: Result<seq<seq<nat>>>)
    ensures r == BalancedResult(lens, k, equalSize)
  {
    if |lens| < k { return Err(AssertionFailed); }
    var partitions := Partition(lens, k, equalSize);
    if partitions.Err? { return partitions; }
    DifferencedBalanced(lens, k, equalSize);
    MembersOfExact(partitions.value, |lens|, k);
    r := CheckAndSort(partitions.value, |lens|, k);
  }

  lemma {:induction false} MembersOfExact(parts: seq<seq<nat>>, n: nat, k: nat)
    requires ExactPartition(parts, n, k)
    ensures Members(parts) == IndexSet(n)
  {
    PermutationFacts(Flatten(parts), n);
    forall i ensures i in Members(parts) <==> i in IndexSet(n) {
      if i in Flatten(parts) { assert Range(n)[i] == i; }
    }
  }
}
