/** Dynamic batching: splitting a batch by token count, and putting the results back in order. */
module MicroBatches {
  import opened Sequences
  import opened Reduction
  import opened Balanced
  import opened SeqlenBalancing
  import Greedy
  import Arithmetic

  // ----- ceildiv

  /** Python's //, which rounds towards minus infinity. */
  function FloorDiv(a: int, b: int): int
    requires b != 0
  {
    if b > 0 then a / b else (-a) / (-b)
  }

  function CeilDiv(a: int, b: int): int
    requires b != 0
  {
    -FloorDiv(a, -b)
  }

  /** ceildiv is the true ceiling, for negative divisors too. */
  lemma {:induction false} CeilDivIsCeiling(a: int, b: int)
    requires b != 0
    ensures b > 0 ==> (CeilDiv(a, b) - 1) * b < a <= CeilDiv(a, b) * b
    ensures b < 0 ==> CeilDiv(a, b) * b <= a < (CeilDiv(a, b) - 1) * b
  {
    var c, d := CeilDiv(a, b), if b > 0 then b else -b;
    var x := if b > 0 then -a else a;
    assert x == x / d * d + x % d && c == -(x / d);
    Arithmetic.Distribute(c, -1, b);
    assert b > 0 ==> -c * b == x / d * d;
    assert b < 0 ==> c * b == x / d * d;
  }

  // ----- rearrange_micro_batches

  /** One row of the batch: its attention mask and whatever else it carries. */
  datatype Row<T> = Row(mask: seq<bool>, data: T)

  function Ones(mask: seq<bool>): (n: nat)
    ensures n <= |mask|
  {
    if mask == [] then 0 else (if mask[0] then 1 else 0) + Ones(mask[1..])
  }

  /** The effective length of each row. */
  function Lengths<T>(batch: seq<Row<T>>): (r: seq<nat>)
    ensures |r| == |batch| && forall i :: 0 <= i < |batch| ==> r[i] == Ones(batch[i].mask)
  {
    seq(|batch|, i requires 0 <= i < |batch| => Ones(batch[i].mask))
  }

  function Max(a: int, b: int): int { if a > b then a else b }

  /** all_reduce with MAX: this rank's count against those of the other ranks. */
  function MaxOver(own: int, others: seq<int>): (m: int)
    ensures m >= own && forall i :: 0 <= i < |others| ==> m >= others[i]
    ensures m == own || m in others
  {
    if others == [] then own else
      assert forall i :: 0 < i < |others| ==> others[i] == others[1..][i - 1];
      Max(others[0], MaxOver(own, others[1..]))
  }

  function PartCount<T>(batch: seq<Row<T>>, limit: int, others: seq<int>): int
    requires limit != 0
  {
    MaxOver(CeilDiv(Greedy.TotalLength(Lengths(batch)), limit), others)
  }

  /** The parts chosen for a batch of rows of a given width, or the reason there are none. Without a
      process group `others` is empty. */
  function MicroBatchIndices<T>(batch: seq<Row<T>>, width: nat, limit: int, others: seq<int>): Result<seq<seq<nat>>> {
    if limit < width then Err(AssertionFailed)
    else if limit == 0 then Err(DivisionByZero)
    else if PartCount(batch, limit, others) > |batch| then Err(AssertionFailed)
    else BalancedResult(Lengths(batch), PartCount(batch, limit, others), false)
  }

  /** The elements at the given positions, in that order. */
  function Select<T>(s: seq<T>, positions: seq<nat>): (r: seq<T>)
    requires InRange(positions, |s|)
    ensures |r| == |positions| && forall i :: 0 <= i < |r| ==> r[i] == s[positions[i]]
  {
    seq(|positions|, i requires 0 <= i < |positions| => s[positions[i]])
  }

  function SelectAll<T>(s: seq<T>, parts: seq<seq<nat>>): (r: seq<seq<T>>)
    requires AllInRange(parts, |s|)
    ensures |r| == |parts| && forall p :: 0 <= p < |r| ==> r[p] == Select(s, parts[p])
  {
    seq(|parts|, p requires 0 <= p < |parts| => Select(s, parts[p]))
  }

  method RearrangeMicroBatches<T>(batch: seq<Row<T>>, width: nat, limit: int, others: seq<int>)
    returns (r: Result<seq<seq<Row<T>>>>, parts: seq<seq<nat>>)
    ensures r.Ok? <==> MicroBatchIndices(batch, width, limit, others).Ok?
    ensures r.Err? ==> r.error == MicroBatchIndices(batch, width, limit, others).error
    ensures r.Ok? ==>
      && parts == MicroBatchIndices(batch, width, limit, others).value
      && AllInRange(parts, |batch|)
      && r.value == SelectAll(batch, parts)
  {
    parts := [];
    if limit < width { return Err(AssertionFailed), parts; }
    if limit == 0 { return Err(DivisionByZero), parts; }
    var lens := Lengths(batch);
    var count := MaxOver(CeilDiv(Greedy.TotalLength(lens), limit), others);
    if count > |batch| { return Err(AssertionFailed), parts; }
    var indices := GetBalancedPartitions(lens, count, false);
    BalancedResultIsBalanced(lens, count, false);
    if indices.Err? { return Err(indices.error), parts; }
    parts := indices.value;
    var micro := GatherRows(batch, parts);
    r := Ok(micro);
  }

  method GatherRows<T>(batch: seq<T>, parts: seq<seq<nat>>) returns (micro: seq<seq<T>>)
    requires AllInRange(parts, |batch|)
    ensures micro == SelectAll(batch, parts)
  {
    micro := [];
    for p := 0 to |parts|
      invariant |micro| == p && forall q :: 0 <= q < p ==> micro[q] == Select(batch, parts[q])
    {
      var current := [];
      for t := 0 to |parts[p]|
        invariant |current| == t && forall u :: 0 <= u < t ==> current[u] == batch[parts[p][u]]
      {
        current := current + [batch[parts[p][t]]];
      }
      micro := micro + [current];
    }
  }

  // ----- how many tokens a micro-batch holds

  lemma {:induction false} LoadsSum(lens: seq<nat>, parts: seq<seq<nat>>)
    requires AllInRange(parts, |lens|)
    ensures InRange(Flatten(parts), |lens|)
    ensures Sum(Loads(lens, parts)) == Load(lens, Flatten(parts))
  {
    Greedy.FlattenInRange(parts, |lens|);
    if parts != [] {
      LoadsSum(lens, parts[1..]);
      LoadAppend(lens, parts[0], Flatten(parts[1..]));
      assert Loads(lens, parts)[1..] == Loads(lens, parts[1..]);
    }
  }

  /** The loads of an exact partition add up to the total length. */
  lemma {:induction false} PartitionTotal(lens: seq<nat>, parts: seq<seq<nat>>, k: nat)
    requires ExactPartition(parts, |lens|, k) && AllInRange(parts, |lens|)
    ensures Sum(Loads(lens, parts)) == Greedy.TotalLength(lens)
  {
    LoadsSum(lens, parts);
    LoadPermutation(lens, Flatten(parts), Range(|lens|));
    Greedy.LoadOfRange(lens, |lens|);
    assert lens[..|lens|] == lens;
  }

  /** k times any part is at most the total plus (k-1) times the spread. */
  lemma {:induction false} HeaviestBound(lens: seq<nat>, parts: seq<seq<nat>>, k: nat, bound: nat, p: nat)
    requires ExactPartition(parts, |lens|, k) && WithinSpread(lens, parts, bound) && p < k
    ensures k * Load(lens, parts[p]) <= Greedy.TotalLength(lens) + (k - 1) * bound
  {
    PartitionTotal(lens, parts, k);
    SumNearMaximum(Loads(lens, parts), p, bound);
  }

  lemma {:induction false} DivideBound(k: nat, load: int, total: int, limit: int, bound: nat)
    requires k >= 1 && k * load <= total + (k - 1) * bound && total <= k * limit
    ensures load <= limit + bound
    ensures bound > 0 ==> load < limit + bound
  {
    assert total + (k - 1) * bound <= k * limit + k * bound - bound by {
      Arithmetic.Distribute(k, -1, bound);
    }
    Scale(k, load, limit + bound, bound);
  }

  lemma {:induction false} Scale(k: nat, x: int, y: int, slack: nat)
    requires k >= 1 && k * x <= k * y - slack
    ensures x <= y
    ensures slack > 0 ==> x < y
  {
    if x > y { Arithmetic.MulMonotone(y + 1, x, k); Arithmetic.Distribute(y, 1, k); }
  }

  /** Every micro-batch holds at most the limit plus the longest row, hence at most twice the
      limit; the overshoot is strictly less than one longest row. */
  lemma {:induction false} TokenBound<T>(batch: seq<Row<T>>, width: nat, limit: int, others: seq<int>, p: nat)
    requires forall i :: 0 <= i < |batch| ==> |batch[i].mask| == width
    requires MicroBatchIndices(batch, width, limit, others).Ok?
    requires p < |MicroBatchIndices(batch, width, limit, others).value|
    ensures var lens := Lengths(batch);
      var parts := MicroBatchIndices(batch, width, limit, others).value;
      && InRange(parts[p], |lens|)
      && |parts| * Load(lens, parts[p]) <= Greedy.TotalLength(lens) + (|parts| - 1) * Longest(lens)
      && Load(lens, parts[p]) < limit + Longest(lens)
      && Load(lens, parts[p]) < 2 * limit
  {
    hide MicroBatchIndices, BalancedResult, Load, CeilDiv, Lengths, PartCount;
    IndicesAreBalanced(batch, width, limit, others);
    PartsBound(Lengths(batch), limit, PartCount(batch, limit, others), p);
  }

  /** There are as many micro-batches as the rank that needs most of them asks for, so with the counts of all
      ranks exchanged every rank runs as many. */
  lemma {:induction false} PartsAgree<T>(batch: seq<Row<T>>, width: nat, limit: int, others: seq<int>)
    requires MicroBatchIndices(batch, width, limit, others).Ok?
    ensures var count, own := |MicroBatchIndices(batch, width, limit, others).value|, CeilDiv(Greedy.TotalLength(Lengths(batch)), limit);
      && count >= own && (forall i :: 0 <= i < |others| ==> count >= others[i]) && (count == own || count in others)
  {
    hide CeilDiv;
    BalancedResultIsBalanced(Lengths(batch), PartCount(batch, limit, others), false);
  }

  /** When the parts are chosen at all, the balancer chose them, and the limit is at least the longest row. */
  lemma {:induction false} IndicesAreBalanced<T>(batch: seq<Row<T>>, width: nat, limit: int, others: seq<int>)
    requires forall i :: 0 <= i < |batch| ==> |batch[i].mask| == width
    requires MicroBatchIndices(batch, width, limit, others).Ok?
    ensures Longest(Lengths(batch)) <= limit && limit > 0
    ensures MicroBatchIndices(batch, width, limit, others) == BalancedResult(Lengths(batch), PartCount(batch, limit, others), false)
    ensures PartCount(batch, limit, others) >= CeilDiv(Greedy.TotalLength(Lengths(batch)), limit)
  {
    hide BalancedResult, CeilDiv;
    assert Longest(Lengths(batch)) <= width <= limit;
  }

  lemma {:induction false} PartsBound(lens: seq<nat>, limit: int, k: int, p: nat)
    requires BalancedResult(lens, k, false).Ok? && p < |BalancedResult(lens, k, false).value|
    requires limit >= Longest(lens) && limit > 0 && k >= CeilDiv(Greedy.TotalLength(lens), limit)
    ensures var parts := BalancedResult(lens, k, false).value;
      && InRange(parts[p], |lens|) && |parts| == k
      && k * Load(lens, parts[p]) <= Greedy.TotalLength(lens) + (k - 1) * Longest(lens)
      && Load(lens, parts[p]) < limit + Longest(lens)
  {
    BalancedResultIsBalanced(lens, k, false);
    CeilDivIsCeiling(Greedy.TotalLength(lens), limit);
    hide BalancedResult, CeilDiv;
    LoadBound(lens, BalancedResult(lens, k, false).value, k, limit, CeilDiv(Greedy.TotalLength(lens), limit), p);
  }

  lemma {:induction false} LoadBound(lens: seq<nat>, parts: seq<seq<nat>>, k: nat, limit: int, c: int, p: nat)
    requires ExactPartition(parts, |lens|, k) && WithinSpread(lens, parts, Longest(lens)) && p < k
    requires limit >= Longest(lens) && limit > 0
    requires c <= k && Greedy.TotalLength(lens) <= c * limit
    ensures k * Load(lens, parts[p]) <= Greedy.TotalLength(lens) + (k - 1) * Longest(lens)
    ensures Load(lens, parts[p]) < limit + Longest(lens)
  {
    HeaviestBound(lens, parts, k, Longest(lens), p);
    Arithmetic.MulMonotone(c, k, limit);
    DivideBound(k, Load(lens, parts[p]), Greedy.TotalLength(lens), limit, Longest(lens));
    if Longest(lens) == 0 { LoadOfZeros(lens, parts[p]); }
  }

  lemma {:induction false} LoadOfZeros(lens: seq<nat>, part: seq<nat>)
    requires InRange(part, |lens|) && Longest(lens) == 0
    ensures Load(lens, part) == 0
  {
    if part != [] { LoadOfZeros(lens, part[1..]); }
  }

  /** When the total leaves room for the spread, every micro-batch really keeps to the limit. */
  lemma {:induction false} TokenLimitKept<T>(batch: seq<Row<T>>, width: nat, limit: int, others: seq<int>, p: nat)
    requires MicroBatchIndices(batch, width, limit, others).Ok?
    requires p < |MicroBatchIndices(batch, width, limit, others).value|
    requires var k := PartCount(batch, limit, others); var lens := Lengths(batch);
      Greedy.TotalLength(lens) + (k - 1) * Longest(lens) < k * (limit + 1)
    ensures var parts := MicroBatchIndices(batch, width, limit, others).value;
      InRange(parts[p], |batch|) && Load(Lengths(batch), parts[p]) <= limit
  {
    hide Load, CeilDiv, BalancedResult, PartCount, Lengths;
    var lens, k := Lengths(batch), PartCount(batch, limit, others);
    var parts := MicroBatchIndices(batch, width, limit, others).value;
    BalancedResultIsBalanced(lens, k, false);
    HeaviestBound(lens, parts, k, Longest(lens), p);
    StrictlyBelow(k, Load(lens, parts[p]), limit + 1);
  }

  lemma {:induction false} StrictlyBelow(k: nat, x: int, y: int)
    requires k * x < k * y
    ensures x < y
  {
    if x >= y { Arithmetic.MulMonotone(y, x, k); }
  }

  /** Rows of 3, 3 and 4 tokens with a limit of 5 ask for two parts, and whatever two are chosen, one exceeds 5. */
  lemma {:induction false} NoPartsKeepFive(parts: seq<seq<nat>>)
    requires ExactPartition(parts, 3, 2)
    ensures CeilDiv(Greedy.TotalLength([3, 3, 4]), 5) == 2
    ensures AllInRange(parts, 3)
    ensures Load([3, 3, 4], parts[0]) > 5 || Load([3, 3, 4], parts[1]) > 5
  {
    var lens: seq<nat> := [3, 3, 4];
    assert lens[1..] == [3, 4] && lens[1..][1..] == [4] && lens[1..][1..][1..] == [];
    assert Greedy.TotalLength(lens) == 10;
    ExactInRange(parts, 3, 2);
    PartitionTotal(lens, parts, 2);
    var loads := Loads(lens, parts);
    assert loads == [loads[0], loads[1]];
    if loads[0] == 5 { NoFive(parts[0]); }
    assert Sum(loads) == loads[0] + (loads[1] + Sum(loads[1..][1..]));
  }

  function ThreeRows<T>(x: T): (r: seq<Row<T>>)
    ensures |r| == 3
  {
    [Row([true, true, true, false], x), Row([true, true, true, false], x), Row([true, true, true, true], x)]
  }

  lemma {:induction false} ThreeLengths<T>(x: T)
    ensures Lengths(ThreeRows(x)) == [3, 3, 4]
  {
    OnesOfFour(true, true, true, false);
    OnesOfFour(true, true, true, true);
    assert Lengths(ThreeRows(x))[0] == 3;
  }

  lemma {:induction false} OnesOfFour(a: bool, b: bool, c: bool, d: bool)
    ensures Ones([a, b, c, d]) == (if a then 1 else 0) + (if b then 1 else 0) + (if c then 1 else 0) + (if d then 1 else 0)
  {
    assert [a, b, c, d][1..] == [b, c, d] && [b, c, d][1..] == [c, d] && [c, d][1..] == [d] && [d][1..] == [];
    assert Ones([c, d]) == (if c then 1 else 0) + Ones([d]);
    assert Ones([b, c, d]) == (if b then 1 else 0) + Ones([c, d]);
  }

  /** The limit itself is not kept in general: this batch is split, and its first micro-batch exceeds the limit. */
  lemma {:induction false} TokenLimitNotKept<T>(x: T)
    ensures MicroBatchIndices(ThreeRows(x), 4, 5, []).Ok?
    ensures var parts := MicroBatchIndices(ThreeRows(x), 4, 5, []).value;
      AllInRange(parts, 3) && parts != [] && Load(Lengths(ThreeRows(x)), parts[0]) > 5
  {
    hide BalancedResult, CeilDiv;
    var lens: seq<nat> := [3, 3, 4];
    ThreeLengths(x);
    assert lens[1..] == [3, 4] && lens[1..][1..] == [4] && lens[1..][1..][1..] == [];
    SplitsAlone(ThreeRows(x), 4, 5);
    BalancedResultIsBalanced(lens, CeilDiv(Greedy.TotalLength(lens), 5), false);
    var parts := MicroBatchIndices(ThreeRows(x), 4, 5, []).value;
    TenByFive();
    NoPartsKeepFive(parts);
    assert Load(lens, parts[0]) >= Load(lens, parts[1]);
  }

  lemma {:induction false} TenByFive()
    ensures CeilDiv(10, 5) == 2
  {
  }

  // ----- rows of one length

  lemma {:induction false} LoadOfEqual(lens: seq<nat>, part: seq<nat>, length: nat)
    requires InRange(part, |lens|) && forall i :: 0 <= i < |lens| ==> lens[i] == length
    ensures Load(lens, part) == |part| * length
  {
    if part != [] {
      LoadOfEqual(lens, part[1..], length);
      Arithmetic.Distribute(1, |part| - 1, length);
    }
  }

  /** Parts of such rows differ by at most one row, so none has more than the rounded-up share, and one has it. */
  lemma {:induction false} EqualShares(lens: seq<nat>, parts: seq<seq<nat>>, k: nat, length: nat) returns (h: nat)
    requires k >= 1 && length >= 1 && ExactPartition(parts, |lens|, k) && WithinSpread(lens, parts, length)
    requires forall i :: 0 <= i < |lens| ==> lens[i] == length
    ensures forall p :: 0 <= p < k ==> |parts[p]| <= CeilDiv(|lens|, k)
    ensures h < k && |parts[h]| == CeilDiv(|lens|, k)
  {
    hide Load, CeilDiv, ExactPartition;
    var sizes := Greedy.Sizes(parts);
    PartSizes(parts, |lens|, k);
    CeilDivIsCeiling(|lens|, k);
    forall p, q | 0 <= p < k && 0 <= q < k ensures sizes[p] - sizes[q] <= 1 {
      LoadOfEqual(lens, parts[p], length);
      LoadOfEqual(lens, parts[q], length);
      CloseCounts(|parts[p]|, |parts[q]|, length);
    }
    h := RoundedUpShare(sizes, |lens|, CeilDiv(|lens|, k));
  }

  lemma {:induction false} PartSizes(parts: seq<seq<nat>>, n: nat, k: nat)
    requires ExactPartition(parts, n, k)
    ensures |parts| == k && Sum(Greedy.Sizes(parts)) == n
  {
    PermutationFacts(Flatten(parts), n);
    Greedy.SizesSum(parts);
  }

  /** Numbers that differ by at most one: the largest is the rounded-up mean. */
  lemma {:induction false} RoundedUpShare(sizes: seq<int>, n: nat, c: int) returns (h: nat)
    requires sizes != [] && Sum(sizes) == n && (c - 1) * |sizes| < n <= c * |sizes|
    requires forall p, q :: 0 <= p < |sizes| && 0 <= q < |sizes| ==> sizes[p] - sizes[q] <= 1
    ensures forall p :: 0 <= p < |sizes| ==> sizes[p] <= c
    ensures h < |sizes| && sizes[h] == c
  {
    forall p | 0 <= p < |sizes| ensures sizes[p] <= c {
      NotAbove(sizes, n, c, p);
    }
    if forall p :: 0 <= p < |sizes| ==> sizes[p] <= c - 1 { Greedy.SumCeiling(sizes, c - 1); }
    h :| 0 <= h < |sizes| && sizes[h] > c - 1;
  }

  lemma {:induction false} NotAbove(sizes: seq<int>, n: nat, c: int, p: nat)
    requires p < |sizes| && Sum(sizes) == n <= c * |sizes|
    requires forall q :: 0 <= q < |sizes| ==> sizes[p] - sizes[q] <= 1
    ensures sizes[p] <= c
  {
    SumNearMaximum(sizes, p, 1);
    if sizes[p] > c {
      Arithmetic.MulMonotone(c + 1, sizes[p], |sizes|);
      Arithmetic.Distribute(c, 1, |sizes|);
    }
  }

  lemma {:induction false} CloseCounts(a: nat, b: nat, length: nat)
    requires length >= 1 && a * length - b * length <= length
    ensures a - b <= 1
  {
    if a >= b + 2 { Arithmetic.MulMonotone(b + 2, a, length); Arithmetic.Distribute(b, 2, length); }
  }

  /** For rows of one length the limit is kept exactly when the rounded-up share of rows keeps it. */
  lemma {:induction false} EqualRowsKeepLimit<T>(batch: seq<Row<T>>, width: nat, limit: int, others: seq<int>, length: nat)
    requires MicroBatchIndices(batch, width, limit, others).Ok? && length >= 1
    requires forall i :: 0 <= i < |batch| ==> Lengths(batch)[i] == length
    ensures var parts, k := MicroBatchIndices(batch, width, limit, others).value, PartCount(batch, limit, others);
      && k >= 1 && AllInRange(parts, |batch|)
      && ((forall p :: 0 <= p < |parts| ==> Load(Lengths(batch), parts[p]) <= limit) <==> CeilDiv(|batch|, k) * length <= limit)
  {
    hide Load, CeilDiv, PartCount, BalancedResult, Lengths;
    var lens, k := Lengths(batch), PartCount(batch, limit, others);
    var parts := MicroBatchIndices(batch, width, limit, others).value;
    BalancedResultIsBalanced(lens, k, false);
    assert Longest(lens) == length;
    var h := EqualShares(lens, parts, k, length);
    forall p | 0 <= p < k ensures Load(lens, parts[p]) == |parts[p]| * length && Load(lens, parts[p]) <= CeilDiv(|lens|, k) * length {
      LoadOfEqual(lens, parts[p], length);
      Arithmetic.MulMonotone(|parts[p]|, CeilDiv(|lens|, k), length);
    }
  }

  /** The bound on the heaviest micro-batch is attained: k + 1 rows of one length in k parts. */
  lemma {:induction false} TokenBoundIsTight(lens: seq<nat>, parts: seq<seq<nat>>, k: nat, length: nat) returns (h: nat)
    requires k >= 1 && length >= 1 && |lens| == k + 1 && ExactPartition(parts, |lens|, k) && WithinSpread(lens, parts, length)
    requires forall i :: 0 <= i < |lens| ==> lens[i] == length
    ensures h < k && k * Load(lens, parts[h]) == Greedy.TotalLength(lens) + (k - 1) * length
  {
    h := EqualShares(lens, parts, k, length);
    CeilDivIsCeiling(k + 1, k);
    var c := CeilDiv(k + 1, k);
    if c >= 3 { Arithmetic.MulMonotone(2, c - 1, k); }
    if c <= 1 { Arithmetic.MulMonotone(c, 1, k); }
    LoadOfEqual(lens, parts[h], length);
    SumOfEqual(lens, length);
    assert k * (2 * length) == (k + 1) * length + (k - 1) * length;
  }

  lemma {:induction false} SumOfEqual(lens: seq<int>, length: nat)
    requires forall i :: 0 <= i < |lens| ==> lens[i] == length
    ensures Sum(lens) == |lens| * length
  {
    if lens != [] {
      SumOfEqual(lens[1..], length);
      Arithmetic.Distribute(1, |lens| - 1, length);
    }
  }

  lemma {:induction false} ExactInRange(parts: seq<seq<nat>>, n: nat, k: nat)
    requires ExactPartition(parts, n, k)
    ensures AllInRange(parts, n)
  {
    PermutationFacts(Flatten(parts), n);
    forall p, i | 0 <= p < |parts| && 0 <= i < |parts[p]| ensures parts[p][i] < n {
      FlattenMember(parts, p, i);
    }
  }

  lemma {:induction false} FlattenMember<T>(parts: seq<seq<T>>, p: nat, i: nat)
    requires p < |parts| && i < |parts[p]|
    ensures parts[p][i] in Flatten(parts)
  {
    if p > 0 { FlattenMember(parts[1..], p - 1, i); }
  }

  /** 3s and 4s never add up to 5. */
  lemma {:induction false} NoFive(part: seq<nat>)
    requires InRange(part, 3)
    ensures Load([3, 3, 4], part) != 5
  {
    var lens: seq<nat> := [3, 3, 4];
    if |part| >= 2 {
      assert Load(lens, part) == lens[part[0]] + (lens[part[1]] + Load(lens, part[1..][1..]));
    }
  }

  /** Without a process group the number of micro-batches never exceeds the number of rows, so a
      batch with at least one token is always split when the limit covers the row width. */
  lemma {:induction false} SplitsAlone<T>(batch: seq<Row<T>>, width: nat, limit: int)
    requires forall i :: 0 <= i < |batch| ==> |batch[i].mask| == width
    ensures MicroBatchIndices(batch, width, limit, []).Ok? <==>
      limit >= width && limit > 0 && Greedy.TotalLength(Lengths(batch)) > 0
  {
    if limit >= width && limit > 0 {
      CountInRange(Lengths(batch), limit);
      BalancedResultIsBalanced(Lengths(batch), CeilDiv(Greedy.TotalLength(Lengths(batch)), limit), false);
    }
  }

  lemma {:induction false} CountInRange(lens: seq<nat>, limit: nat)
    requires limit > 0 && forall i :: 0 <= i < |lens| ==> lens[i] <= limit
    ensures CeilDiv(Greedy.TotalLength(lens), limit) <= |lens|
    ensures CeilDiv(Greedy.TotalLength(lens), limit) >= 1 <==> Greedy.TotalLength(lens) > 0
  {
    var total := Greedy.TotalLength(lens);
    var k := CeilDiv(total, limit);
    CeilDivIsCeiling(total, limit);
    TotalAtMost(lens, limit);
    if k > |lens| { Arithmetic.MulMonotone(|lens|, k - 1, limit); }
    if k <= 0 { Arithmetic.MulMonotone(k, 0, limit); }
    if total == 0 && k >= 1 { Arithmetic.MulMonotone(0, k - 1, limit); }
  }

  lemma {:induction false} TotalAtMost(lens: seq<nat>, limit: nat)
    requires forall i :: 0 <= i < |lens| ==> lens[i] <= limit
    ensures Greedy.TotalLength(lens) <= |lens| * limit
  {
    if lens != [] {
      TotalAtMost(lens[1..], limit);
      Arithmetic.Distribute(1, |lens| - 1, limit);
    }
  }

  // ----- get_reverse_idx

  /** The list after the first `upto` writes. */
  function Written(idxMap: seq<nat>, upto: nat): (r: seq<nat>)
    requires upto <= |idxMap| && InRange(idxMap, |idxMap|)
    ensures |r| == |idxMap|
  {
    if upto == 0 then idxMap else Written(idxMap, upto - 1)[idxMap[upto - 1] := upto - 1]
  }

  function ReverseIdx(idxMap: seq<nat>): (r: seq<nat>)
    requires InRange(idxMap, |idxMap|)
    ensures |r| == |idxMap|
  {
    Written(idxMap, |idxMap|)
  }

  method GetReverseIdx(idxMap: seq<nat>) returns (r: Result<seq<nat>>)
    ensures r == if InRange(idxMap, |idxMap|) then Ok(ReverseIdx(idxMap)) else Err(IndexOutOfRange)
  {
    var reverse := new nat[|idxMap|](i requires 0 <= i < |idxMap| => idxMap[i]);
    for i := 0 to |idxMap|
      invariant InRange(idxMap[..i], |idxMap|)
      invariant InRange(idxMap, |idxMap|) ==> reverse[..] == Written(idxMap, i)
    {
      if idxMap[i] >= |idxMap| { return Err(IndexOutOfRange); }
      reverse[idxMap[i]] := i;
    }
    r := Ok(reverse[..]);
  }

  lemma {:induction false} WrittenAt(idxMap: seq<nat>, upto: nat, i: nat)
    requires upto <= |idxMap| && InRange(idxMap, |idxMap|) && Distinct(idxMap) && i < upto
    ensures Written(idxMap, upto)[idxMap[i]] == i
  {
    if i < upto - 1 { WrittenAt(idxMap, upto - 1, i); }
  }

  /** On an arrangement of the indices the result is the inverse arrangement, on both sides. */
  lemma {:induction false} ReverseInverts(idxMap: seq<nat>)
    requires IsPermutation(idxMap, |idxMap|)
    ensures InRange(idxMap, |idxMap|)
    ensures forall i :: 0 <= i < |idxMap| ==> ReverseIdx(idxMap)[idxMap[i]] == i
    ensures forall j :: 0 <= j < |idxMap| ==> ReverseIdx(idxMap)[j] < |idxMap| && idxMap[ReverseIdx(idxMap)[j]] == j
  {
    PermutationFacts(idxMap, |idxMap|);
    forall i | 0 <= i < |idxMap| ensures ReverseIdx(idxMap)[idxMap[i]] == i {
      WrittenAt(idxMap, |idxMap|, i);
    }
    forall j: nat | j < |idxMap| ensures ReverseIdx(idxMap)[j] < |idxMap| && idxMap[ReverseIdx(idxMap)[j]] == j {
      assert j in idxMap;
      var i :| 0 <= i < |idxMap| && idxMap[i] == j;
    }
  }

  // ----- transparency

  lemma {:induction false} FlattenSelect<T>(s: seq<T>, parts: seq<seq<nat>>)
    requires AllInRange(parts, |s|)
    ensures InRange(Flatten(parts), |s|)
    ensures Flatten(SelectAll(s, parts)) == Select(s, Flatten(parts))
  {
    Greedy.FlattenInRange(parts, |s|);
    if parts != [] {
      FlattenSelect(s, parts[1..]);
      assert SelectAll(s, parts)[1..] == SelectAll(s, parts[1..]);
    }
  }

  /** Running a per-row function on each micro-batch, gluing the outputs and indexing them by the
      reversed indices gives the function on the original batch, row for row. */
  lemma {:induction false} DynamicBatchingTransparent<R, U>(f: R -> U, batch: seq<R>, parts: seq<seq<nat>>, k: nat)
    requires ExactPartition(parts, |batch|, k)
    ensures AllInRange(parts, |batch|) && InRange(Flatten(parts), |Flatten(parts)|)
    ensures var scores := Flatten(Map(micro => Map(f, micro), SelectAll(batch, parts)));
      var revert := ReverseIdx(Flatten(parts));
      InRange(revert, |scores|) && Select(scores, revert) == Map(f, batch)
  {
    var flat := Flatten(parts);
    ExactInRange(parts, |batch|, k);
    PermutationFacts(flat, |batch|);
    ReverseInverts(flat);
    FlattenMap(f, SelectAll(batch, parts));
    FlattenSelect(batch, parts);
  }

  /** Rearranging, mapping and reverting through the methods' own results: whenever the batch is split at all. */
  lemma {:induction false} MicroBatchesTransparent<T, U>(f: Row<T> -> U, batch: seq<Row<T>>, width: nat, limit: int, others: seq<int>)
    requires MicroBatchIndices(batch, width, limit, others).Ok?
    ensures var parts := MicroBatchIndices(batch, width, limit, others).value;
      && AllInRange(parts, |batch|) && InRange(Flatten(parts), |Flatten(parts)|)
      && var scores := Flatten(Map(micro => Map(f, micro), SelectAll(batch, parts)));
      && InRange(ReverseIdx(Flatten(parts)), |scores|)
      && Select(scores, ReverseIdx(Flatten(parts))) == Map(f, batch)
  {
    var k := PartCount(batch, limit, others);
    BalancedResultIsBalanced(Lengths(batch), k, false);
    DynamicBatchingTransparent(f, batch, MicroBatchIndices(batch, width, limit, others).value, k);
  }
}
