/**
 Putting a tensor back together from its tensor-parallel shards. A tensor is a sequence of rows and a row a
 sequence of opaque elements; the shards come in rank order.
 */
module TensorParallel {
  import opened Sequences
  import opened Blocks
  import Arithmetic

  type Tensor<E> = seq<seq<E>>

  /** How a key's shards belong together. */
  datatype Kind = GateUp | Qkv | Replicated | Rows | Columns

  datatype Merged<E> =
    | Whole(tensor: Tensor<E>)
    | GateAndUp(gate: Tensor<E>, up: Tensor<E>)
    | QueryKeyValue(q: Tensor<E>, k: Tensor<E>, v: Tensor<E>)

  /** The number of attention heads and of key-value heads. */
  datatype Heads = Heads(attention: nat, keyValue: nat)

  predicate Contains(s: string, part: string) {
    exists i :: 0 <= i <= |s| && part <= s[i..]
  }

  /** The tests on the key, in the order in which they are made. */
  function KindOf(key: string, isValueModel: bool): Kind {
    if Contains(key, "linear_fc1.weight") then GateUp
    else if Contains(key, "self_attention.linear_qkv.") && !Contains(key, "layer_norm") then Qkv
    else if Contains(key, "layer_norm") || Contains(key, "layernorm") || (Contains(key, "output_layer") && isValueModel) then Replicated
    else if Contains(key, "linear_fc2.weight") || Contains(key, "self_attention.linear_proj") then Columns
    else Rows
  }

  // ----- torch.chunk

  /** Pieces of the given size, the last one possibly shorter. */
  function Pieces<T>(s: seq<T>, size: nat): seq<seq<T>>
    requires size >= 1
  {
    if s == [] then [] else if |s| <= size then [s] else [s[..size]] + Pieces(s[size..], size)
  }

  /** At most n pieces of the rounded-up size; an empty tensor gives n empty pieces. */
  function TorchChunk<T>(s: seq<T>, n: nat): seq<seq<T>>
    requires n >= 1
  {
    if s == [] then seq(n, _ => []) else
      ChunkSizePositive(|s|, n);
      Pieces(s, (|s| + n - 1) / n)
  }

  lemma {:induction false} ChunkSizePositive(size: nat, n: nat)
    requires n >= 1 && size >= 1
    ensures (size + n - 1) / n >= 1
  {
    Arithmetic.QuotientRemainder(n, n, 1, 0);
    if (size + n - 1) / n < 1 { Arithmetic.MulMonotone((size + n - 1) / n, 0, n); }
  }

  lemma {:induction false} PiecesAreCut<T>(s: seq<T>, n: nat, size: nat)
    requires size >= 1 && |s| == n * size
    ensures Pieces(s, size) == Cut(s, n, size)
  {
    if n > 0 {
      BlockBounds(0, n, size);
      Arithmetic.Distribute(n - 1, 1, size);
      if n == 1 {
        assert s[..size] == s;
      } else {
        Arithmetic.MulMonotone(1, n - 1, size);
        PiecesAreCut(s[size..], n - 1, size);
      }
    }
  }

  /** When the rows divide evenly the pieces are the n equal blocks. */
  lemma {:induction false} EvenChunk<T>(s: seq<T>, n: nat, size: nat)
    requires n >= 1 && |s| == n * size
    ensures TorchChunk(s, n) == Cut(s, n, size)
  {
    if size == 0 {
      assert s == [];
      assert TorchChunk(s, n) == Cut(s, n, 0);
    } else {
      Arithmetic.MulMonotone(1, n, size);
      Arithmetic.QuotientRemainder(|s| + n - 1, n, size, n - 1);
      PiecesAreCut(s, n, size);
    }
  }

  // ----- gate and up

  /** gate, up = param.chunk(2), which needs two pieces. */
  function Halves<E>(shards: seq<Tensor<E>>, which: nat): seq<Tensor<E>>
    requires which < 2 && forall i :: 0 <= i < |shards| ==> |TorchChunk(shards[i], 2)| == 2
  {
    seq(|shards|, i requires 0 <= i < |shards| => TorchChunk(shards[i], 2)[which])
  }

  function MergeGateUp<E>(shards: seq<Tensor<E>>): Result<Merged<E>> {
    if exists i :: 0 <= i < |shards| && |TorchChunk(shards[i], 2)| != 2 then Err(ShapeMismatch)
    else Ok(GateAndUp(Flatten(Halves(shards, 0)), Flatten(Halves(shards, 1))))
  }

  // ----- fused query, key and value

  /** The sizes of the three parts of one group's piece. */
  datatype Split = Split(q: nat, kv: nat)

  function Parts<E>(pieces: seq<Tensor<E>>, from: nat, to: nat): (r: seq<Tensor<E>>)
    requires from <= to && forall i :: 0 <= i < |pieces| ==> to <= |pieces[i]|
    ensures |r| == |pieces| && forall i :: 0 <= i < |pieces| ==> r[i] == pieces[i][from..to]
  {
    seq(|pieces|, i requires 0 <= i < |pieces| => pieces[i][from..to])
  }

  /** All pieces of all shards, in order. */
  function GroupPieces<E>(shards: seq<Tensor<E>>, groups: nat): seq<Tensor<E>>
    requires groups >= 1
  {
    if shards == [] then [] else GroupPieces(shards[..|shards| - 1], groups) + TorchChunk(shards[|shards| - 1], groups)
  }

  predicate AllSplit<E>(pieces: seq<Tensor<E>>, split: Split) {
    forall i :: 0 <= i < |pieces| ==> |pieces[i]| == split.q + 2 * split.kv
  }

  function SplitPieces<E>(pieces: seq<Tensor<E>>, split: Split): Merged<E>
    requires AllSplit(pieces, split)
  {
    QueryKeyValue(
      Flatten(Parts(pieces, 0, split.q)),
      Flatten(Parts(pieces, split.q, split.q + split.kv)),
      Flatten(Parts(pieces, split.q + split.kv, split.q + 2 * split.kv)))
  }

  /** The checks before the loop over the shards, and the split they lead to. */
  function QkvSplit(rows: nat, tp: nat, heads: Heads): (r: Result<(nat, Split)>)
    requires tp >= 1
    ensures r.Ok? ==> r.value.0 >= 1
  {
    if heads.keyValue == 0 then Err(DivisionByZero)
    else if heads.attention % heads.keyValue != 0 then Err(AssertionFailed)
    else
      var perGroup := heads.attention / heads.keyValue;
      if rows % (perGroup + 2) != 0 then Err(AssertionFailed)
      else
        var groups := heads.keyValue / tp;
        if groups == 0 then Err(ShapeMismatch)
        else
          var kv: nat := rows / (perGroup + 2);
          var q: nat := kv * perGroup;
          Ok((groups, Split(q / groups, kv / groups)))
  }

  function MergeQkv<E>(shards: seq<Tensor<E>>, heads: Heads): Result<Merged<E>> {
    if shards == [] then Err(IndexOutOfRange)
    else
      match QkvSplit(|shards[0]|, |shards|, heads)
      case Err(e) => Err(e)
      case Ok((groups, split)) =>
        if !AllSplit(GroupPieces(shards, groups), split) then Err(ShapeMismatch)
        else Ok(SplitPieces(GroupPieces(shards, groups), split))
  }

  // ----- whole tensors

  /** torch.cat(dim=1): the shards need equally many rows. */
  function CatColumns<E>(shards: seq<Tensor<E>>): Result<Merged<E>> {
    if shards == [] then Err(ShapeMismatch)
    else if exists i :: 0 <= i < |shards| && |shards[i]| != |shards[0]| then Err(ShapeMismatch)
    else Ok(Whole(seq(|shards[0]|, j requires 0 <= j < |shards[0]| => Flatten(RowOfAll(shards, j)))))
  }

  function RowOfAll<E>(shards: seq<Tensor<E>>, j: nat): (r: seq<seq<E>>)
    requires forall i :: 0 <= i < |shards| ==> j < |shards[i]|
    ensures |r| == |shards| && forall i :: 0 <= i < |shards| ==> r[i] == shards[i][j]
  {
    seq(|shards|, i requires 0 <= i < |shards| => shards[i][j])
  }

  /** merge_across_tp. Concatenating nothing is an error. */
  function Merge<E>(kind: Kind, shards: seq<Tensor<E>>, heads: Heads): Result<Merged<E>> {
    match kind
    case GateUp => if shards == [] then Err(ShapeMismatch) else MergeGateUp(shards)
    case Qkv => MergeQkv(shards, heads)
    case Replicated => if shards == [] then Err(IndexOutOfRange) else Ok(Whole(shards[0]))
    case Rows => if shards == [] then Err(ShapeMismatch) else Ok(Whole(Flatten(shards)))
    case Columns => CatColumns(shards)
  }

  // ----- the loops

  method MergeGateUpLoop<E>(shards: seq<Tensor<E>>) returns (merged: Result<Merged<E>>)
    ensures merged == MergeGateUp(shards)
  {
    var gates, ups := [], [];
    for i := 0 to |shards|
      invariant forall j :: 0 <= j < i ==> |TorchChunk(shards[j], 2)| == 2
      invariant gates == Halves(shards[..i], 0) && ups == Halves(shards[..i], 1)
    {
      var halves := TorchChunk(shards[i], 2);
      if |halves| != 2 { return Err(ShapeMismatch); }
      gates := gates + [halves[0]];
      ups := ups + [halves[1]];
      assert shards[..i + 1] == shards[..i] + [shards[i]];
    }
    assert shards[..|shards|] == shards;
    return Ok(GateAndUp(Flatten(gates), Flatten(ups)));
  }

  /** The pieces of one shard, appended to the three lists. */
  method AppendParts<E>(pieces: seq<Tensor<E>>, split: Split, ghost before: seq<Tensor<E>>,
                        q0: seq<Tensor<E>>, k0: seq<Tensor<E>>, v0: seq<Tensor<E>>)
    returns (ok: bool, q: seq<Tensor<E>>, k: seq<Tensor<E>>, v: seq<Tensor<E>>)
    requires AllSplit(before, split) && ListsOf(before, split, q0, k0, v0)
    ensures ok <==> AllSplit(pieces, split)
    ensures ok ==> AllSplit(before + pieces, split) && ListsOf(before + pieces, split, q, k, v)
  {
    q, k, v := q0, k0, v0;
    for i := 0 to |pieces|
      invariant AllSplit(pieces[..i], split) && AllSplit(before + pieces[..i], split)
      invariant ListsOf(before + pieces[..i], split, q, k, v)
    {
      var piece := pieces[i];
      if |piece| != split.q + 2 * split.kv { return false, q, k, v; }
      q := q + [piece[..split.q]];
      k := k + [piece[split.q..split.q + split.kv]];
      v := v + [piece[split.q + split.kv..]];
      ListsStep(before + pieces[..i], piece, split);
      assert before + pieces[..i + 1] == before + pieces[..i] + [piece];
      assert pieces[..i + 1] == pieces[..i] + [piece];
    }
    assert pieces[..|pieces|] == pieces;
    ok := true;
  }

  ghost predicate ListsOf<E>(pieces: seq<Tensor<E>>, split: Split, q: seq<Tensor<E>>, k: seq<Tensor<E>>, v: seq<Tensor<E>>)
    requires AllSplit(pieces, split)
  {
    && q == Parts(pieces, 0, split.q)
    && k == Parts(pieces, split.q, split.q + split.kv)
    && v == Parts(pieces, split.q + split.kv, split.q + 2 * split.kv)
  }

  lemma {:induction false} ListsStep<E>(pieces: seq<Tensor<E>>, piece: Tensor<E>, split: Split)
    requires AllSplit(pieces, split) && |piece| == split.q + 2 * split.kv
    ensures AllSplit(pieces + [piece], split)
    ensures Parts(pieces + [piece], 0, split.q) == Parts(pieces, 0, split.q) + [piece[..split.q]]
    ensures Parts(pieces + [piece], split.q, split.q + split.kv)
         == Parts(pieces, split.q, split.q + split.kv) + [piece[split.q..split.q + split.kv]]
    ensures Parts(pieces + [piece], split.q + split.kv, split.q + 2 * split.kv)
         == Parts(pieces, split.q + split.kv, split.q + 2 * split.kv) + [piece[split.q + split.kv..]]
  {
    assert piece[split.q + split.kv..] == piece[split.q + split.kv..split.q + 2 * split.kv];
  }

  lemma {:induction false} AllSplitAppend<E>(a: seq<Tensor<E>>, b: seq<Tensor<E>>, split: Split)
    ensures AllSplit(a + b, split) <==> AllSplit(a, split) && AllSplit(b, split)
  {
    if AllSplit(a + b, split) {
      assert forall j :: 0 <= j < |a| ==> a[j] == (a + b)[j];
      assert forall j :: 0 <= j < |b| ==> b[j] == (a + b)[|a| + j];
    }
  }

  method MergeQkvLoop<E>(shards: seq<Tensor<E>>, heads: Heads) returns (merged: Result<Merged<E>>)
    ensures merged == MergeQkv(shards, heads)
  {
    if shards == [] { return Err(IndexOutOfRange); }
    var plan := QkvSplit(|shards[0]|, |shards|, heads);
    if plan.Err? { return Err(plan.error); }
    var (groups, split) := plan.value;
    var q, k, v := [], [], [];
    for i := 0 to |shards|
      invariant AllSplit(GroupPieces(shards[..i], groups), split)
      invariant ListsOf(GroupPieces(shards[..i], groups), split, q, k, v)
    {
      var pieces := TorchChunk(shards[i], groups);
      assert shards[..i + 1][..i] == shards[..i];
      assert GroupPieces(shards[..i + 1], groups) == GroupPieces(shards[..i], groups) + pieces;
      var ok;
      ok, q, k, v := AppendParts(pieces, split, GroupPieces(shards[..i], groups), q, k, v);
      if !ok {
        PiecesInclude(shards, i, groups, split);
        return Err(ShapeMismatch);
      }
    }
    assert shards[..|shards|] == shards;
    return Ok(QueryKeyValue(Flatten(q), Flatten(k), Flatten(v)));
  }

  lemma {:induction false} PiecesInclude<E>(shards: seq<Tensor<E>>, i: nat, groups: nat, split: Split)
    requires groups >= 1 && i < |shards|
    ensures AllSplit(GroupPieces(shards, groups), split) ==> AllSplit(TorchChunk(shards[i], groups), split)
    decreases |shards|
  {
    hide TorchChunk, AllSplit;
    var last := |shards| - 1;
    AllSplitAppend(GroupPieces(shards[..last], groups), TorchChunk(shards[last], groups), split);
    if i < last { PiecesInclude(shards[..last], i, groups, split); }
  }

  method MergeAcrossTp<E>(kind: Kind, shards: seq<Tensor<E>>, heads: Heads) returns (merged: Result<Merged<E>>)
    ensures merged == Merge(kind, shards, heads)
    ensures kind.Replicated? && shards != [] ==> merged == Ok(Whole(shards[0]))
  {
    match kind
    case GateUp =>
      if shards == [] { return Err(ShapeMismatch); }
      merged := MergeGateUpLoop(shards);
    case Qkv => merged := MergeQkvLoop(shards, heads);
    case Replicated => merged := if shards == [] then Err(IndexOutOfRange) else Ok(Whole(shards[0]));
    case Rows => merged := if shards == [] then Err(ShapeMismatch) else Ok(Whole(Flatten(shards)));
    case Columns => merged := CatColumns(shards);
  }
}
