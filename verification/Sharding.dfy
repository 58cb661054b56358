/**
 How a model's tensors are spread over the tensor-parallel ranks, and the proof that merging the shards gives
 the tensors back, and sharding the merged tensors the shards.
 */
module Sharding {
  import opened Sequences
  import opened Blocks
  import opened TensorParallel
  import Arithmetic

  // ----- gate and up: every rank holds its part of the gate above its part of the up projection

  function ShardGateUp<E>(gate: Tensor<E>, up: Tensor<E>, tp: nat, f: nat): (r: seq<Tensor<E>>)
    requires |gate| == tp * f && |up| == tp * f
    ensures |r| == tp && forall t :: 0 <= t < tp ==> r[t] == Cut(gate, tp, f)[t] + Cut(up, tp, f)[t]
  {
    seq(tp, t requires 0 <= t < tp => Cut(gate, tp, f)[t] + Cut(up, tp, f)[t])
  }

  lemma {:induction false} TwoHalves<E>(shard: Tensor<E>, a: Tensor<E>, b: Tensor<E>, f: nat)
    requires shard == a + b && |a| == f && |b| == f
    ensures TorchChunk(shard, 2) == [a, b]
  {
    var parts := [a, b];
    assert parts[1..] == [b] && Flatten([b]) == b + Flatten([]);
    assert Flatten(parts) == shard;
    CutFlatten(parts, f);
    EvenChunk(shard, 2, f);
  }

  lemma {:induction false} GateUpMerges<E>(gate: Tensor<E>, up: Tensor<E>, tp: nat, f: nat)
    requires |gate| == tp * f && |up| == tp * f
    ensures MergeGateUp(ShardGateUp(gate, up, tp, f)) == Ok(GateAndUp(gate, up))
  {
    hide TorchChunk, Cut, Flatten;
    var shards := ShardGateUp(gate, up, tp, f);
    forall t | 0 <= t < tp ensures TorchChunk(shards[t], 2) == [Cut(gate, tp, f)[t], Cut(up, tp, f)[t]] {
      TwoHalves(shards[t], Cut(gate, tp, f)[t], Cut(up, tp, f)[t], f);
    }
    assert Halves(shards, 0) == Cut(gate, tp, f);
    assert Halves(shards, 1) == Cut(up, tp, f);
    FlattenCut(gate, tp, f);
    FlattenCut(up, tp, f);
  }

  lemma {:induction false} GateUpShards<E>(shards: seq<Tensor<E>>, f: nat)
    requires AllOf(shards, 2 * f)
    ensures var merged := MergeGateUp(shards);
      && merged.Ok? && merged.value.GateAndUp?
      && |merged.value.gate| == |shards| * f && |merged.value.up| == |shards| * f
      && ShardGateUp(merged.value.gate, merged.value.up, |shards|, f) == shards
  {
    hide TorchChunk, Cut, Flatten;
    forall t | 0 <= t < |shards| ensures TorchChunk(shards[t], 2) == [shards[t][..f], shards[t][f..]] {
      TwoHalves(shards[t], shards[t][..f], shards[t][f..], f);
    }
    var gates, ups := Halves(shards, 0), Halves(shards, 1);
    CutFlatten(gates, f);
    CutFlatten(ups, f);
    forall t | 0 <= t < |shards| ensures gates[t] + ups[t] == shards[t] {
      assert shards[t] == shards[t][..f] + shards[t][f..];
    }
  }

  // ----- fused query, key and value: every rank holds the blocks of its groups, one below the other

  /** Group i's block: its query rows, then its key rows, then its value rows. */
  function Fuse<E>(q: Tensor<E>, k: Tensor<E>, v: Tensor<E>, groups: nat, split: Split): (r: seq<Tensor<E>>)
    requires |q| == groups * split.q && |k| == groups * split.kv && |v| == groups * split.kv
    ensures |r| == groups && AllSplit(r, split)
    ensures forall i :: 0 <= i < groups ==>
      r[i] == Cut(q, groups, split.q)[i] + Cut(k, groups, split.kv)[i] + Cut(v, groups, split.kv)[i]
  {
    var (qs, ks, vs) := (Cut(q, groups, split.q), Cut(k, groups, split.kv), Cut(v, groups, split.kv));
    var blocks := seq(groups, i requires 0 <= i < groups => qs[i] + ks[i] + vs[i]);
    assert forall i :: 0 <= i < groups ==> |blocks[i]| == |qs[i]| + |ks[i]| + |vs[i]|;
    blocks
  }

  /** Consecutive runs of g blocks, one run for each rank. */
  function Spread<E>(blocks: seq<Tensor<E>>, tp: nat, g: nat): (r: seq<Tensor<E>>)
    requires |blocks| == tp * g
    ensures |r| == tp && forall t :: 0 <= t < tp ==> r[t] == Flatten(Cut(blocks, tp, g)[t])
  {
    seq(tp, t requires 0 <= t < tp => Flatten(Cut(blocks, tp, g)[t]))
  }

  function ShardQkv<E>(q: Tensor<E>, k: Tensor<E>, v: Tensor<E>, tp: nat, g: nat, split: Split): (r: seq<Tensor<E>>)
    requires |q| == tp * g * split.q && |k| == tp * g * split.kv && |v| == tp * g * split.kv
    ensures |r| == tp
  {
    Spread(Fuse(q, k, v, tp * g, split), tp, g)
  }

  /** The split that the checks arrive at is the one the tensors were fused with. */
  lemma {:induction false} SplitFound(rows: nat, tp: nat, g: nat, perGroup: nat, h: nat, heads: Heads)
    requires tp >= 1 && g >= 1
    requires heads.keyValue == tp * g && heads.attention == perGroup * heads.keyValue
    requires rows == g * (perGroup * h + 2 * h)
    ensures QkvSplit(rows, tp, heads) == Ok((g, Split(perGroup * h, h)))
  {
    var kv := g * h;
    Arithmetic.MulMonotone(1, tp, g);
    Arithmetic.MultipleModulo(perGroup, heads.keyValue);
    calc {
      rows;
      { Arithmetic.Distribute(perGroup, 2, h); }
      g * ((perGroup + 2) * h);
      kv * (perGroup + 2);
    }
    Arithmetic.MultipleModulo(kv, perGroup + 2);
    Arithmetic.MultipleModulo(g, tp);
    assert g * tp == heads.keyValue;
    assert kv * perGroup == perGroup * h * g;
    Arithmetic.MultipleModulo(perGroup * h, g);
    Arithmetic.MultipleModulo(h, g);
    assert kv == h * g;
  }

  lemma {:induction false} GroupPiecesAre<E>(shards: seq<Tensor<E>>, g: nat, runs: seq<seq<Tensor<E>>>)
    requires g >= 1 && |runs| == |shards|
    requires forall t :: 0 <= t < |shards| ==> TorchChunk(shards[t], g) == runs[t]
    ensures GroupPieces(shards, g) == Flatten(runs)
    decreases |shards|
  {
    hide TorchChunk;
    if shards != [] {
      var last := |shards| - 1;
      GroupPiecesAre(shards[..last], g, runs[..last]);
      FlattenAppend(runs[..last], [runs[last]]);
      assert runs == runs[..last] + [runs[last]];
      assert Flatten([runs[last]]) == runs[last] + Flatten([]);
    }
  }

  /** A rank's pieces are its blocks. */
  lemma {:induction false} SpreadPieces<E>(blocks: seq<Tensor<E>>, tp: nat, g: nat, size: nat)
    requires |blocks| == tp * g && g >= 1 && AllOf(blocks, size)
    ensures GroupPieces(Spread(blocks, tp, g), g) == blocks
    ensures AllOf(Spread(blocks, tp, g), g * size)
  {
    hide TorchChunk, GroupPieces;
    var runs := Cut(blocks, tp, g);
    var shards := Spread(blocks, tp, g);
    forall t | 0 <= t < tp ensures TorchChunk(shards[t], g) == runs[t] && |shards[t]| == g * size {
      CutAt(blocks, tp, g, t);
      assert AllOf(runs[t], size);
      CutFlatten(runs[t], size);
      EvenChunk(shards[t], g, size);
    }
    GroupPiecesAre(shards, g, runs);
    FlattenCut(blocks, tp, g);
  }

  lemma {:induction false} ThreeParts<T>(a: seq<T>, b: seq<T>, c: seq<T>)
    ensures var s := a + b + c;
      && s[0..|a|] == a && s[|a|..|a| + |b|] == b && s[|a| + |b|..|a| + |b| + |c|] == c
  {
  }

  lemma {:induction false} FusedParts<E>(q: Tensor<E>, k: Tensor<E>, v: Tensor<E>, groups: nat, split: Split)
    requires |q| == groups * split.q && |k| == groups * split.kv && |v| == groups * split.kv
    ensures SplitPieces(Fuse(q, k, v, groups, split), split) == QueryKeyValue(q, k, v)
  {
    hide Cut, Flatten;
    var blocks := Fuse(q, k, v, groups, split);
    var qs, ks, vs := Cut(q, groups, split.q), Cut(k, groups, split.kv), Cut(v, groups, split.kv);
    forall i | 0 <= i < groups
      ensures blocks[i][0..split.q] == qs[i] && blocks[i][split.q..split.q + split.kv] == ks[i]
      ensures blocks[i][split.q + split.kv..split.q + 2 * split.kv] == vs[i]
    {
      ThreeParts(qs[i], ks[i], vs[i]);
    }
    assert Parts(blocks, 0, split.q) == qs;
    assert Parts(blocks, split.q, split.q + split.kv) == ks;
    assert Parts(blocks, split.q + split.kv, split.q + 2 * split.kv) == vs;
    FlattenCut(q, groups, split.q);
    FlattenCut(k, groups, split.kv);
    FlattenCut(v, groups, split.kv);
  }

  lemma {:induction false} QkvMerges<E>(q: Tensor<E>, k: Tensor<E>, v: Tensor<E>, tp: nat, g: nat, perGroup: nat, h: nat, heads: Heads)
    requires tp >= 1 && g >= 1
    requires heads.keyValue == tp * g && heads.attention == perGroup * heads.keyValue
    requires |q| == tp * g * (perGroup * h) && |k| == tp * g * h && |v| == tp * g * h
    ensures MergeQkv(ShardQkv(q, k, v, tp, g, Split(perGroup * h, h)), heads) == Ok(QueryKeyValue(q, k, v))
  {
    hide GroupPieces, Flatten, Cut, QkvSplit, SplitPieces;
    var split := Split(perGroup * h, h);
    var blocks := Fuse(q, k, v, tp * g, split);
    var shards := ShardQkv(q, k, v, tp, g, split);
    SpreadPieces(blocks, tp, g, split.q + 2 * split.kv);
    SplitFound(|shards[0]|, tp, g, perGroup, h, heads);
    FusedParts(q, k, v, tp * g, split);
  }

  /** Splitting blocks and fusing the parts again gives the blocks. */
  lemma {:induction false} PartsFuse<E>(blocks: seq<Tensor<E>>, split: Split)
    requires AllSplit(blocks, split)
    ensures var m := SplitPieces(blocks, split);
      && |m.q| == |blocks| * split.q && |m.k| == |blocks| * split.kv && |m.v| == |blocks| * split.kv
      && Fuse(m.q, m.k, m.v, |blocks|, split) == blocks
  {
    hide Cut, Flatten;
    var q, k, v := Parts(blocks, 0, split.q), Parts(blocks, split.q, split.q + split.kv),
      Parts(blocks, split.q + split.kv, split.q + 2 * split.kv);
    CutFlatten(q, split.q);
    CutFlatten(k, split.kv);
    CutFlatten(v, split.kv);
    forall i | 0 <= i < |blocks| ensures q[i] + k[i] + v[i] == blocks[i] {
    }
  }

  lemma {:induction false} PiecesSpread<E>(shards: seq<Tensor<E>>, g: nat, size: nat)
    requires g >= 1 && AllOf(shards, g * size)
    ensures |GroupPieces(shards, g)| == |shards| * g && AllOf(GroupPieces(shards, g), size)
    ensures Spread(GroupPieces(shards, g), |shards|, g) == shards
  {
    hide TorchChunk, GroupPieces;
    var runs := seq(|shards|, t requires 0 <= t < |shards| => Cut(shards[t], g, size));
    forall t | 0 <= t < |shards| ensures TorchChunk(shards[t], g) == runs[t] && Flatten(runs[t]) == shards[t] {
      EvenChunk(shards[t], g, size);
      FlattenCut(shards[t], g, size);
    }
    GroupPiecesAre(shards, g, runs);
    CutFlatten(runs, g);
    FlattenAllOf(runs, size);
  }

  lemma {:induction false} FlattenAllOf<T>(runs: seq<seq<seq<T>>>, size: nat)
    requires forall t :: 0 <= t < |runs| ==> AllOf(runs[t], size)
    ensures AllOf(Flatten(runs), size)
  {
    if runs != [] { FlattenAllOf(runs[1..], size); }
  }

  /** Every row of every shard is placed exactly once: sharding the merged lists gives the shards back. */
  lemma {:induction false} QkvShards<E>(shards: seq<Tensor<E>>, g: nat, perGroup: nat, h: nat, heads: Heads)
    requires |shards| >= 1 && g >= 1
    requires heads.keyValue == |shards| * g && heads.attention == perGroup * heads.keyValue
    requires AllOf(shards, g * (perGroup * h + 2 * h))
    ensures var merged, split, tp := MergeQkv(shards, heads), Split(perGroup * h, h), |shards|;
      && merged.Ok? && merged.value.QueryKeyValue?
      && |merged.value.q| == tp * g * split.q && |merged.value.k| == tp * g * split.kv && |merged.value.v| == tp * g * split.kv
      && ShardQkv(merged.value.q, merged.value.k, merged.value.v, tp, g, split) == shards
  {
    hide GroupPieces, Flatten, Cut, QkvSplit, Parts;
    var split, tp := Split(perGroup * h, h), |shards|;
    SplitFound(|shards[0]|, tp, g, perGroup, h, heads);
    PiecesSpread(shards, g, split.q + 2 * split.kv);
    PartsFuse(GroupPieces(shards, g), split);
  }

  /** With more ranks than key-value heads the merge fails: chunk(0) is refused. */
  lemma {:induction false} TooManyRanks<E>(shards: seq<Tensor<E>>, heads: Heads)
    requires |shards| > heads.keyValue
    ensures MergeQkv(shards, heads).Err?
  {
    assert heads.keyValue / |shards| == 0;
  }

  // ----- columns: every rank holds its part of each row

  function ShardColumns<E>(tensor: Tensor<E>, tp: nat, m: nat): (r: seq<Tensor<E>>)
    requires AllOf(tensor, tp * m)
    ensures |r| == tp && forall t :: 0 <= t < tp ==> |r[t]| == |tensor|
    ensures forall t, j :: 0 <= t < tp && 0 <= j < |tensor| ==> r[t][j] == Cut(tensor[j], tp, m)[t]
  {
    seq(tp, t requires 0 <= t < tp => seq(|tensor|, j requires 0 <= j < |tensor| => Cut(tensor[j], tp, m)[t]))
  }

  lemma {:induction false} ColumnsMerge<E>(tensor: Tensor<E>, tp: nat, m: nat)
    requires tp >= 1 && AllOf(tensor, tp * m)
    ensures CatColumns(ShardColumns(tensor, tp, m)) == Ok(Whole(tensor))
  {
    hide Cut, Flatten;
    var shards := ShardColumns(tensor, tp, m);
    forall j | 0 <= j < |tensor| ensures Flatten(RowOfAll(shards, j)) == tensor[j] {
      assert RowOfAll(shards, j) == Cut(tensor[j], tp, m);
      FlattenCut(tensor[j], tp, m);
    }
    assert CatColumns(shards).value.tensor == tensor;
  }

  // ----- all kinds

  /** The sizes that let a tensor be sharded over tp ranks; g, perGroup and h are only for Qkv. */
  datatype Plan = Plan(tp: nat, size: nat, g: nat, perGroup: nat, h: nat)

  predicate Shardable<E>(kind: Kind, whole: Merged<E>, plan: Plan, heads: Heads) {
    plan.tp >= 1 &&
    match kind
    case GateUp => whole.GateAndUp? && |whole.gate| == plan.tp * plan.size && |whole.up| == plan.tp * plan.size
    case Qkv =>
      && whole.QueryKeyValue? && plan.g >= 1
      && heads.keyValue == plan.tp * plan.g && heads.attention == plan.perGroup * heads.keyValue
      && |whole.q| == plan.tp * plan.g * (plan.perGroup * plan.h)
      && |whole.k| == plan.tp * plan.g * plan.h && |whole.v| == plan.tp * plan.g * plan.h
    case Replicated => whole.Whole?
    case Rows => whole.Whole? && |whole.tensor| == plan.tp * plan.size
    case Columns => whole.Whole? && AllOf(whole.tensor, plan.tp * plan.size)
  }

  function Shard<E>(kind: Kind, whole: Merged<E>, plan: Plan, heads: Heads): (r: seq<Tensor<E>>)
    requires Shardable(kind, whole, plan, heads)
    ensures |r| == plan.tp
  {
    match kind
    case GateUp => ShardGateUp(whole.gate, whole.up, plan.tp, plan.size)
    case Qkv => ShardQkv(whole.q, whole.k, whole.v, plan.tp, plan.g, Split(plan.perGroup * plan.h, plan.h))
    case Replicated => seq(plan.tp, _ => whole.tensor)
    case Rows => Cut(whole.tensor, plan.tp, plan.size)
    case Columns => ShardColumns(whole.tensor, plan.tp, plan.size)
  }

  /** Whatever the kind, merging the shards gives the tensors that were sharded. */
  lemma {:induction false} MergeInvertsShard<E>(kind: Kind, whole: Merged<E>, plan: Plan, heads: Heads)
    requires Shardable(kind, whole, plan, heads)
    ensures Merge(kind, Shard(kind, whole, plan, heads), heads) == Ok(whole)
  {
    hide MergeGateUp, MergeQkv, CatColumns, Flatten, Cut;
    match kind
    case GateUp => GateUpMerges(whole.gate, whole.up, plan.tp, plan.size);
    case Qkv => QkvMerges(whole.q, whole.k, whole.v, plan.tp, plan.g, plan.perGroup, plan.h, heads);
    case Replicated =>
    case Rows => FlattenCut(whole.tensor, plan.tp, plan.size);
    case Columns => ColumnsMerge(whole.tensor, plan.tp, plan.size);
  }

  // ----- which keys are sharded how, read off the text of the key

  ghost predicate Occurs(part: string, text: string) {
    exists before, after :: text == before + part + after
  }

  lemma {:induction false} ContainsOccurs(text: string, part: string)
    ensures Contains(text, part) <==> Occurs(part, text)
  {
    if Contains(text, part) {
      var i :| 0 <= i <= |text| && part <= text[i..];
      assert text == text[..i] + part + text[i + |part|..];
    }
    if before, after :| text == before + part + after {
      assert part <= text[|before|..];
    }
  }

  /** Every rank has the whole tensor. */
  ghost predicate AllHave<E>(shards: seq<Tensor<E>>, tensor: Tensor<E>) {
    forall t :: 0 <= t < |shards| ==> shards[t] == tensor
  }

  /** How a model is sharded: the first MLP weight as halves, the fused attention weights and biases by groups,
      norms and the head of a value model on every rank, the second MLP weight and the attention projection by
      columns, and everything else by rows. */
  ghost predicate ShardedByText<E>(text: string, isValueModel: bool, whole: Merged<E>, plan: Plan, heads: Heads, shards: seq<Tensor<E>>) {
    plan.tp >= 1 && |shards| == plan.tp &&
    if Occurs("linear_fc1.weight", text) then
      && whole.GateAndUp? && |whole.gate| == plan.tp * plan.size && |whole.up| == plan.tp * plan.size
      && shards == ShardGateUp(whole.gate, whole.up, plan.tp, plan.size)
    else if Occurs("self_attention.linear_qkv.", text) && !Occurs("layer_norm", text) then
      && whole.QueryKeyValue? && plan.g >= 1
      && heads.keyValue == plan.tp * plan.g && heads.attention == plan.perGroup * heads.keyValue
      && |whole.q| == plan.tp * plan.g * (plan.perGroup * plan.h)
      && |whole.k| == plan.tp * plan.g * plan.h && |whole.v| == plan.tp * plan.g * plan.h
      && shards == ShardQkv(whole.q, whole.k, whole.v, plan.tp, plan.g, Split(plan.perGroup * plan.h, plan.h))
    else if Occurs("layer_norm", text) || Occurs("layernorm", text) || (isValueModel && Occurs("output_layer", text)) then
      whole.Whole? && AllHave(shards, whole.tensor)
    else if Occurs("linear_fc2.weight", text) || Occurs("self_attention.linear_proj", text) then
      && whole.Whole? && AllOf(whole.tensor, plan.tp * plan.size)
      && shards == ShardColumns(whole.tensor, plan.tp, plan.size)
    else
      && whole.Whole? && |whole.tensor| == plan.tp * plan.size
      && shards == Cut(whole.tensor, plan.tp, plan.size)
  }

  /** The kind that the merger reads off the key is the one the tensor was sharded by. */
  lemma {:induction false} TextDecidesKind<E>(text: string, isValueModel: bool, whole: Merged<E>, plan: Plan, heads: Heads, shards: seq<Tensor<E>>)
    requires ShardedByText(text, isValueModel, whole, plan, heads, shards)
    ensures var kind := KindOf(text, isValueModel);
      Shardable(kind, whole, plan, heads) && Shard(kind, whole, plan, heads) == shards
  {
    hide Contains, Occurs, ShardGateUp, ShardQkv, ShardColumns, Cut;
    ContainsOccurs(text, "linear_fc1.weight");
    ContainsOccurs(text, "self_attention.linear_qkv.");
    ContainsOccurs(text, "layer_norm");
    ContainsOccurs(text, "layernorm");
    ContainsOccurs(text, "output_layer");
    ContainsOccurs(text, "linear_fc2.weight");
    ContainsOccurs(text, "self_attention.linear_proj");
    if KindOf(text, isValueModel).Replicated? {
      assert shards == seq(plan.tp, _ => whole.tensor);
    }
  }
}
