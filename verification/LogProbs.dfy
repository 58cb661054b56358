/**
 Log-probabilities of the response tokens, from padded logits and from logits of the valid tokens only.
 Logits, tokens and the log-probability itself are opaque.
 */
module LogProbs {
  import opened Sequences
  import opened Blocks
  import Arithmetic

  // ----- get_unpad_data

  /** nonzero: the positions below n that hold a valid token, in order. */
  function ValidBelow(mask: seq<bool>, n: nat): (r: seq<nat>)
    requires n <= |mask|
    ensures |r| <= n && forall k :: 0 <= k < |r| ==> r[k] < n && mask[r[k]]
  {
    if n == 0 then []
    else if mask[n - 1] then ValidBelow(mask, n - 1) + [n - 1]
    else ValidBelow(mask, n - 1)
  }

  function Indices(mask: seq<bool>): seq<nat> {
    ValidBelow(mask, |mask|)
  }

  /** How many valid tokens stand before position p: the place of p among them. */
  function RankOf(mask: seq<bool>, p: nat): nat
    requires p <= |mask|
  {
    |ValidBelow(mask, p)|
  }

  lemma {:induction false} ValidPrefix(mask: seq<bool>, p: nat, n: nat)
    requires p <= n <= |mask|
    ensures ValidBelow(mask, p) <= ValidBelow(mask, n)
  {
    if p < n { ValidPrefix(mask, p, n - 1); }
  }

  /** The valid position p is found at its rank, and positions are found nowhere else. */
  lemma {:induction false} IndexAtRank(mask: seq<bool>, p: nat)
    requires p < |mask|
    ensures mask[p] ==> RankOf(mask, p) < |Indices(mask)| && Indices(mask)[RankOf(mask, p)] == p
    ensures mask[p] ==> RankOf(mask, p + 1) == RankOf(mask, p) + 1
  {
    ValidPrefix(mask, p + 1, |mask|);
  }

  lemma {:induction false} IndicesIncrease(mask: seq<bool>, n: nat)
    requires n <= |mask|
    ensures forall i, j :: 0 <= i < j < |ValidBelow(mask, n)| ==> ValidBelow(mask, n)[i] < ValidBelow(mask, n)[j]
  {
    if n > 0 { IndicesIncrease(mask, n - 1); }
  }

  /** cu_seqlens: how many valid tokens the first b rows hold. */
  function CumulativeLengths(mask: seq<seq<bool>>, b: nat): nat
    requires b <= |mask|
  {
    if b == 0 then 0 else CumulativeLengths(mask, b - 1) + RankOf(mask[b - 1], |mask[b - 1]|)
  }

  lemma {:induction false} ValidAppend(x: seq<bool>, y: seq<bool>, n: nat)
    requires n <= |y|
    ensures |ValidBelow(x + y, |x| + n)| == |ValidBelow(x, |x|)| + |ValidBelow(y, n)|
  {
    if n == 0 {
      ValidSame(x + y, x, |x|);
    } else {
      ValidAppend(x, y, n - 1);
    }
  }

  lemma {:induction false} ValidSame(x: seq<bool>, y: seq<bool>, n: nat)
    requires n <= |x| && n <= |y| && forall i :: 0 <= i < n ==> x[i] == y[i]
    ensures ValidBelow(x, n) == ValidBelow(y, n)
  {
    if n > 0 { ValidSame(x, y, n - 1); }
  }

  lemma {:induction false} RankOfNone(mask: seq<bool>)
    ensures RankOf(mask, 0) == 0
  {
  }

  /** The tokens of row b are the flattened indices from cu_seqlens[b] up to cu_seqlens[b + 1]. */
  lemma {:induction false} CumulativeLengthsMatch(mask: seq<seq<bool>>, size: nat, b: nat)
    requires AllOf(mask, size) && b <= |mask|
    ensures |Flatten(mask)| == |mask| * size && b * size <= |mask| * size
    ensures CumulativeLengths(mask, b) == RankOf(Flatten(mask), b * size)
  {
    hide RankOf, Flatten;
    RankOfNone(Flatten(mask));
    FlattenLength(mask, size);
    Arithmetic.MulMonotone(b, |mask|, size);
    if b > 0 {
      CumulativeLengthsMatch(mask, size, b - 1);
      Arithmetic.Distribute(b - 1, 1, size);
      FlattenLength(mask[..b - 1], size);
      FlattenAppend(mask[..b - 1], mask[b - 1..]);
      assert mask == mask[..b - 1] + mask[b - 1..];
      FlattenRowFirst(mask, b - 1);
      var x, y, z := Flatten(mask[..b - 1]), mask[b - 1], Flatten(mask[b..]);
      assert Flatten(mask) == x + (y + z);
      RankStep(x, y, z);
    }
  }

  lemma {:induction false} RankStep(x: seq<bool>, y: seq<bool>, z: seq<bool>)
    ensures RankOf(x + (y + z), |x| + |y|) == RankOf(x + (y + z), |x|) + RankOf(y, |y|)
  {
    hide ValidBelow;
    ValidAppend(x, y + z, |y|);
    ValidSame(y + z, y, |y|);
    ValidSame(x + (y + z), x, |x|);
  }

  lemma {:induction false} FlattenRowFirst<T>(rows: seq<seq<T>>, b: nat)
    requires b < |rows|
    ensures Flatten(rows[b..]) == rows[b] + Flatten(rows[b + 1..])
  {
    assert rows[b..][1..] == rows[b + 1..];
  }

  /** Hence the tokens between two entries of cu_seqlens all come from that row. */
  lemma {:induction false} TokensOfRow(mask: seq<seq<bool>>, size: nat, b: nat, k: nat)
    requires AllOf(mask, size) && b < |mask|
    requires CumulativeLengths(mask, b) <= k < CumulativeLengths(mask, b + 1)
    ensures k < |Indices(Flatten(mask))|
    ensures b * size <= Indices(Flatten(mask))[k] < (b + 1) * size
  {
    var flat := Flatten(mask);
    CumulativeLengthsMatch(mask, size, b);
    CumulativeLengthsMatch(mask, size, b + 1);
    ValidPrefix(flat, (b + 1) * size, |flat|);
    var p := Indices(flat)[k];
    assert p == ValidBelow(flat, (b + 1) * size)[k];
    if p < b * size {
      IndexAtRank(flat, p);
      ValidPrefix(flat, p + 1, b * size);
      IndicesIncrease(flat, |flat|);
    }
  }

  // ----- unpad, roll, pad

  function Gathered<T>(s: seq<T>, indices: seq<nat>): (r: seq<T>)
    requires forall k :: 0 <= k < |indices| ==> indices[k] < |s|
    ensures |r| == |indices| && forall k :: 0 <= k < |r| ==> r[k] == s[indices[k]]
  {
    seq(|indices|, k requires 0 <= k < |indices| => s[indices[k]])
  }

  /** torch.roll by -1. */
  function Roll<T>(s: seq<T>): (r: seq<T>)
    ensures |r| == |s|
    ensures forall k :: 0 <= k < |s| ==> r[k] == s[if k + 1 < |s| then k + 1 else 0]
  {
    if s == [] then [] else s[1..] + [s[0]]
  }

  /** pad_input: zeros with the values written at the indices, one after the other. */
  function Scattered<V>(values: seq<V>, indices: seq<nat>, size: nat, zero: V, n: nat): (r: seq<V>)
    requires n <= |indices| == |values| && forall k :: 0 <= k < |indices| ==> indices[k] < size
    ensures |r| == size
  {
    if n == 0 then seq(size, _ => zero)
    else Scattered(values, indices, size, zero, n - 1)[indices[n - 1] := values[n - 1]]
  }

  lemma {:induction false} ScatteredAt<V>(values: seq<V>, indices: seq<nat>, size: nat, zero: V, n: nat, p: nat)
    requires n <= |indices| == |values| && forall k :: 0 <= k < |indices| ==> indices[k] < size
    requires Distinct(indices) && p < size
    ensures forall k :: 0 <= k < n && indices[k] == p ==> Scattered(values, indices, size, zero, n)[p] == values[k]
    ensures p !in indices[..n] ==> Scattered(values, indices, size, zero, n)[p] == zero
  {
    if n > 0 {
      ScatteredAt(values, indices, size, zero, n - 1, p);
      assert indices[..n] == indices[..n - 1] + [indices[n - 1]];
    }
  }

  function PairWise<L, T, V>(f: (L, T) -> V, logits: seq<L>, labels: seq<T>): (r: seq<V>)
    requires |logits| == |labels|
    ensures |r| == |logits| && forall k :: 0 <= k < |r| ==> r[k] == f(logits[k], labels[k])
  {
    seq(|logits|, k requires 0 <= k < |logits| => f(logits[k], labels[k]))
  }

  // ----- slicing out the response

  /** x[:, -length-1:-1] */
  function BeforeResponse<T>(row: seq<T>, length: nat): seq<T> {
    Slice(row, -1 - length, -1)
  }

  /** x[:, -length:], which is the whole row for length 0. */
  function Response<T>(row: seq<T>, length: nat): seq<T> {
    Slice(row, 0 - length, |row|)
  }

  // ----- the two computations

  /** log_probs_from_logits_response, one row: the shapes of logits and labels have to agree. */
  function PaddedRow<L, T, V>(f: (L, T) -> V, ids: seq<T>, logits: seq<L>, length: nat): Result<seq<V>>
    requires |ids| == |logits|
  {
    var a, b := BeforeResponse(logits, length), Response(ids, length);
    if |a| == |b| then Ok(PairWise(f, a, b)) else Err(TypeMismatch)
  }

  /** They agree exactly for a non-empty response that leaves at least one token before it. */
  lemma {:induction false} PaddedRowDefined<L, T, V>(f: (L, T) -> V, ids: seq<T>, logits: seq<L>, length: nat)
    requires |ids| == |logits| && ids != []
    ensures PaddedRow(f, ids, logits, length).Ok? <==> 1 <= length < |ids|
  {
  }

  /** The scores of the valid tokens against their rolled successors, padded back with zeros. */
  function FullScores<L, T, V>(f: (L, T) -> V, ids: seq<T>, logits: seq<L>, indices: seq<nat>, size: nat, zero: V): (r: seq<V>)
    requires |ids| == |logits| == |indices| && forall k :: 0 <= k < |indices| ==> indices[k] < size
    ensures |r| == size
  {
    Scattered(PairWise(f, logits, Roll(ids)), indices, size, zero, |indices|)
  }

  /** Cut into rows, and slice each row. */
  function ResponseRows<V>(full: seq<V>, batch: nat, size: nat, length: nat): (r: seq<seq<V>>)
    requires |full| == batch * size
    ensures |r| == batch && forall b :: 0 <= b < batch ==> r[b] == BeforeResponse(Cut(full, batch, size)[b], length)
    ensures length < size ==> AllOf(r, length)
  {
    seq(batch, b requires 0 <= b < batch => BeforeResponse(Cut(full, batch, size)[b], length))
  }

  /** log_probs_from_logits_all_rmpad, given the valid tokens, their logits and their positions. */
  function FromValid<L, T, V>(f: (L, T) -> V, ids: seq<T>, logits: seq<L>, indices: seq<nat>,
                              batch: nat, size: nat, zero: V, length: nat): (r: seq<seq<V>>)
    requires |ids| == |logits| == |indices| && forall k :: 0 <= k < |indices| ==> indices[k] < batch * size
    ensures |r| == batch && (length < size ==> AllOf(r, length))
  {
    ResponseRows(FullScores(f, ids, logits, indices, batch * size, zero), batch, size, length)
  }

  /** log_probs_from_logits_response_rmpad, which picks the valid tokens out itself. */
  function FromPadded<L, T, V>(f: (L, T) -> V, ids: seq<seq<T>>, mask: seq<seq<bool>>, size: nat,
                               logits: seq<L>, zero: V, length: nat): (r: seq<seq<V>>)
    requires |ids| == |mask| && AllOf(ids, size) && AllOf(mask, size)
    requires |logits| == |Indices(Flatten(mask))|
    ensures |r| == |ids| && (length < size ==> AllOf(r, length))
  {
    FlattenLength(ids, size);
    FlattenLength(mask, size);
    var indices := Indices(Flatten(mask));
    FromValid(f, Gathered(Flatten(ids), indices), logits, indices, |ids|, size, zero, length)
  }

  /** The valid token that follows position p, cyclically across the rows. */
  function NextValid(mask: seq<bool>, p: nat): (q: nat)
    requires p < |mask| && mask[p]
    ensures q < |mask| && mask[q]
  {
    IndexAtRank(mask, p);
    var k := RankOf(mask, p);
    Indices(mask)[if k + 1 < |Indices(mask)| then k + 1 else 0]
  }

  lemma {:induction false} NextValidAdjacent(mask: seq<bool>, p: nat)
    requires p + 1 < |mask| && mask[p] && mask[p + 1]
    ensures NextValid(mask, p) == p + 1
  {
    IndexAtRank(mask, p);
    IndexAtRank(mask, p + 1);
  }

  /** The score that the padding-free path gives flat position p. */
  function ScoreAt<L, T, V>(f: (L, T) -> V, ids: seq<T>, mask: seq<bool>, logits: seq<L>, zero: V, p: nat): V
    requires |ids| == |mask| && |logits| == |Indices(mask)| && p < |mask|
  {
    IndexAtRank(mask, p);
    if mask[p] then f(logits[RankOf(mask, p)], ids[NextValid(mask, p)]) else zero
  }

  lemma {:induction false} FullScoreAt<L, T, V>(f: (L, T) -> V, ids: seq<T>, mask: seq<bool>, logits: seq<L>, zero: V, p: nat)
    requires |ids| == |mask| && |logits| == |Indices(mask)| && p < |mask|
    ensures FullScores(f, Gathered(ids, Indices(mask)), logits, Indices(mask), |mask|, zero)[p] == ScoreAt(f, ids, mask, logits, zero, p)
  {
    var indices := Indices(mask);
    IndicesIncrease(mask, |mask|);
    ScatteredAt(PairWise(f, logits, Roll(Gathered(ids, indices))), indices, |mask|, zero, |indices|, p);
    assert indices[..|indices|] == indices;
    IndexAtRank(mask, p);
  }

  lemma {:induction false} ResponseEntry<V>(full: seq<V>, batch: nat, size: nat, length: nat, b: nat, j: nat)
    requires |full| == batch * size && length < size && b < batch && j < length
    ensures |ResponseRows(full, batch, size, length)[b]| == length
    ensures FlatPosition(b, size, size - 1 - length + j) < |full|
    ensures ResponseRows(full, batch, size, length)[b][j] == full[FlatPosition(b, size, size - 1 - length + j)]
  {
    CutAt(full, batch, size, b);
  }

  /** Where position t of row b is in the flattened batch. */
  function FlatPosition(b: nat, size: nat, t: nat): nat {
    b * size + t
  }

  /** The score of position t of row b: zero at a padding position, and otherwise that position's logits
      against the next valid token, even where that token is in another row. */
  function EntryScore<L, T, V>(f: (L, T) -> V, ids: seq<seq<T>>, mask: seq<seq<bool>>, size: nat,
                               logits: seq<L>, zero: V, b: nat, t: nat): V
    requires |ids| == |mask| && AllOf(ids, size) && AllOf(mask, size)
    requires |logits| == |Indices(Flatten(mask))| && b < |ids| && t < size
  {
    FlattenLength(ids, size);
    FlattenLength(mask, size);
    FlattenAt(mask, size, b, t);
    if mask[b][t] then ScoreAt(f, Flatten(ids), Flatten(mask), logits, zero, FlatPosition(b, size, t)) else zero
  }

  /** Every entry of the padding-free result, for every response length below the row size. */
  lemma {:induction false} PaddingFreeEntry<L, T, V>(f: (L, T) -> V, ids: seq<seq<T>>, mask: seq<seq<bool>>, size: nat,
                                                     logits: seq<L>, zero: V, length: nat, b: nat, j: nat)
    requires |ids| == |mask| && AllOf(ids, size) && AllOf(mask, size)
    requires |logits| == |Indices(Flatten(mask))|
    requires length < size && b < |ids| && j < length
    ensures FromPadded(f, ids, mask, size, logits, zero, length)[b][j]
         == EntryScore(f, ids, mask, size, logits, zero, b, size - 1 - length + j)
  {
    hide FromPadded, FullScores, ResponseRows, ScoreAt, FlatPosition, Flatten, EntryScore;
    FlattenLength(ids, size);
    FlattenLength(mask, size);
    var t: nat := size - 1 - length + j;
    EntryScoreIs(f, ids, mask, size, logits, zero, b, t);
    var scores := FullScores(f, Gathered(Flatten(ids), Indices(Flatten(mask))), logits, Indices(Flatten(mask)), |ids| * size, zero);
    FullScoreAt(f, Flatten(ids), Flatten(mask), logits, zero, FlatPosition(b, size, t));
    FromPaddedIs(f, ids, mask, size, logits, zero, length, scores);
    ResponseEntry(scores, |ids|, size, length, b, j);
  }

  lemma {:induction false} EntryScoreIs<L, T, V>(f: (L, T) -> V, ids: seq<seq<T>>, mask: seq<seq<bool>>, size: nat,
                                                 logits: seq<L>, zero: V, b: nat, t: nat)
    requires |ids| == |mask| && AllOf(ids, size) && AllOf(mask, size)
    requires |logits| == |Indices(Flatten(mask))| && b < |ids| && t < size
    ensures |Flatten(ids)| == |Flatten(mask)| && FlatPosition(b, size, t) < |Flatten(mask)|
    ensures EntryScore(f, ids, mask, size, logits, zero, b, t)
         == ScoreAt(f, Flatten(ids), Flatten(mask), logits, zero, FlatPosition(b, size, t))
  {
    hide Flatten;
    FlattenLength(ids, size);
    FlattenLength(mask, size);
    FlattenAt(mask, size, b, t);
  }

  lemma {:induction false} FromPaddedIs<L, T, V>(f: (L, T) -> V, ids: seq<seq<T>>, mask: seq<seq<bool>>, size: nat,
                                                 logits: seq<L>, zero: V, length: nat, scores: seq<V>)
    requires |ids| == |mask| && AllOf(ids, size) && AllOf(mask, size)
    requires |logits| == |Indices(Flatten(mask))|
    requires |Flatten(ids)| == |Flatten(mask)| == |ids| * size
    requires scores == FullScores(f, Gathered(Flatten(ids), Indices(Flatten(mask))), logits, Indices(Flatten(mask)), |ids| * size, zero)
    ensures FromPadded(f, ids, mask, size, logits, zero, length) == ResponseRows(scores, |ids|, size, length)
  {
    hide FullScores, ResponseRows;
  }

  lemma {:induction false} PaddedEntry<L, T, V>(f: (L, T) -> V, ids: seq<T>, logits: seq<L>, length: nat, j: nat)
    requires |ids| == |logits| && 1 <= length < |ids| && j < length
    ensures PaddedRow(f, ids, logits, length).Ok? && |PaddedRow(f, ids, logits, length).value| == length
    ensures var t := |ids| - 1 - length + j; PaddedRow(f, ids, logits, length).value[j] == f(logits[t], ids[t + 1])
  {
  }

  /** Where position t of row b and its successor are valid, the padding-free score is the row's own. */
  lemma {:induction false} ScoreWithinRow<L, T, V>(f: (L, T) -> V, ids: seq<seq<T>>, mask: seq<seq<bool>>, size: nat,
                                                   padded: seq<seq<L>>, zero: V, b: nat, t: nat)
    requires |ids| == |mask| == |padded| && AllOf(ids, size) && AllOf(mask, size) && AllOf(padded, size)
    requires b < |ids| && t + 1 < size && mask[b][t] && mask[b][t + 1]
    requires |Flatten(padded)| == |Flatten(mask)|
    ensures EntryScore(f, ids, mask, size, Gathered(Flatten(padded), Indices(Flatten(mask))), zero, b, t)
         == f(padded[b][t], ids[b][t + 1])
  {
    FlattenLength(ids, size);
    FlattenLength(mask, size);
    FlattenLength(padded, size);
    FlattenAt(mask, size, b, t);
    FlattenAt(mask, size, b, t + 1);
    FlattenAt(ids, size, b, t + 1);
    FlattenAt(padded, size, b, t);
    NextValidAdjacent(Flatten(mask), b * size + t);
    IndexAtRank(Flatten(mask), b * size + t);
  }

  /** The padding-free path refines the padded one: if the logits agree on the valid tokens, both give the
      same value wherever a position and its successor are valid. */
  lemma {:induction false} PaddingFreeRefinesPadded<L, T, V>(f: (L, T) -> V, ids: seq<seq<T>>, mask: seq<seq<bool>>, size: nat,
                                                             padded: seq<seq<L>>, logits: seq<L>, zero: V, length: nat, b: nat, j: nat)
    requires |ids| == |mask| == |padded| && AllOf(ids, size) && AllOf(mask, size) && AllOf(padded, size)
    requires |Flatten(padded)| == |Flatten(mask)| && logits == Gathered(Flatten(padded), Indices(Flatten(mask)))
    requires 1 <= length < size && b < |ids| && j < length
    requires mask[b][size - 1 - length + j] && mask[b][size - length + j]
    ensures PaddedRow(f, ids[b], padded[b], length).Ok?
    ensures |PaddedRow(f, ids[b], padded[b], length).value| == length
    ensures FromPadded(f, ids, mask, size, logits, zero, length)[b][j] == PaddedRow(f, ids[b], padded[b], length).value[j]
  {
    hide FromPadded, PaddedRow, EntryScore;
    PaddingFreeEntry(f, ids, mask, size, logits, zero, length, b, j);
    PaddedEntry(f, ids[b], padded[b], length, j);
    ScoreWithinRow(f, ids, mask, size, padded, zero, b, size - 1 - length + j);
  }
}
