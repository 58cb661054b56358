/**
 The checkpoint merger: chunk by chunk and key by key it merges the tensor-parallel shards and stores them under
 the global layer number. A model that was split over stages, chunks and ranks comes back whole.
 */
module ModelMerger {
  import opened Sequences
  import opened TensorParallel
  import opened Sharding
  import opened Layers
  import Arithmetic

  datatype Part = All | Gate | Up | Query | Key | Value

  /** A key of the merged state: fused tensors are stored part by part. */
  datatype StateKey = StateKey(name: Name, part: Part)

  type StateDict<E> = map<StateKey, Tensor<E>>

  datatype Options = Options(tieWordEmbedding: bool, isValueModel: bool, heads: Heads)

  /** A key of a chunk with its tensors from all tensor-parallel ranks. */
  datatype Entry<E> = Entry(name: Name, shards: seq<Tensor<E>>)

  /** stages[p][v]: the chunks of stage p. */
  type Stages<E> = seq<seq<seq<Entry<E>>>>

  function KeyText(name: Name): string {
    match name
    case InLayer(_, suffix) => suffix
    case Plain(text) => text
  }

  predicate Skipped(name: Name, options: Options) {
    || Contains(KeyText(name), "extra_state")
    || (options.tieWordEmbedding && Contains(KeyText(name), "output_layer"))
  }

  function NameKind(name: Name, options: Options): Kind {
    KindOf(KeyText(name), options.isValueModel)
  }

  function Store<E>(state: StateDict<E>, name: Name, merged: Merged<E>): StateDict<E> {
    match merged
    case Whole(t) => state[StateKey(name, All) := t]
    case GateAndUp(gate, up) => state[StateKey(name, Gate) := gate][StateKey(name, Up) := up]
    case QueryKeyValue(q, k, v) => state[StateKey(name, Query) := q][StateKey(name, Key) := k][StateKey(name, Value) := v]
  }

  function StoreEntry<E>(state: StateDict<E>, entry: Entry<E>, offset: nat, options: Options): Result<StateDict<E>> {
    if Skipped(entry.name, options) then Ok(state)
    else
      var name := Shift(entry.name, offset);
      match Merge(NameKind(name, options), entry.shards, options.heads)
      case Err(e) => Err(e)
      case Ok(merged) => Ok(Store(state, name, merged))
  }

  /** The state after the first n keys of a chunk whose layers start at the offset. */
  function StoreChunk<E>(state: StateDict<E>, chunk: seq<Entry<E>>, n: nat, offset: nat, options: Options): Result<StateDict<E>>
    requires n <= |chunk|
  {
    if n == 0 then Ok(state)
    else
      match StoreChunk(state, chunk, n - 1, offset, options)
      case Err(e) => Err(e)
      case Ok(s) => StoreEntry(s, chunk[n - 1], offset, options)
  }

  function Max(a: nat, b: nat): nat {
    if a < b then b else a
  }

  /** The highest local layer number among the first n keys that are not skipped. */
  function Handled<E>(chunk: seq<Entry<E>>, n: nat, options: Options): nat
    requires n <= |chunk|
  {
    if n == 0 then 0
    else if !Skipped(chunk[n - 1].name, options) && chunk[n - 1].name.InLayer? then
      Max(chunk[n - 1].name.layer, Handled(chunk, n - 1, options))
    else Handled(chunk, n - 1, options)
  }

  function HandledOf<E>(stages: Stages<E>, options: Options): (nat, nat) -> nat {
    (p: nat, v: nat) => if p < |stages| && v < |stages[p]| then Handled(stages[p][v], |stages[p][v]|, options) else 0
  }

  /** The state after the chunks before chunk v of stage p. */
  function Converted<E>(stages: Stages<E>, v: nat, p: nat, options: Options): Result<StateDict<E>>
    requires p <= |stages| && v <= Chunks(stages) && (p > 0 ==> v < Chunks(stages))
    requires EnoughChunks(stages)
    decreases v, p
  {
    if p > 0 then
      match Converted(stages, v, p - 1, options)
      case Err(e) => Err(e)
      case Ok(state) =>
        var chunk := stages[p - 1][v];
        StoreChunk(state, chunk, |chunk|, Cumulated(HandledOf(stages, options), |stages|, v, p - 1), options)
    else if v > 0 then Converted(stages, v - 1, |stages|, options)
    else Ok(map[])
  }

  /** The number of chunks is taken from the first stage. */
  function Chunks<E>(stages: Stages<E>): nat {
    if stages == [] then 0 else |stages[0]|
  }

  predicate EnoughChunks<E>(stages: Stages<E>) {
    forall p :: 0 <= p < |stages| ==> Chunks(stages) <= |stages[p]|
  }

  // ----- the loops

  method ConvertChunk<E>(before: StateDict<E>, chunk: seq<Entry<E>>, offset: nat, options: Options)
    returns (state: Result<StateDict<E>>, handled: nat)
    ensures state == StoreChunk(before, chunk, |chunk|, offset, options)
    ensures state.Ok? ==> handled == Handled(chunk, |chunk|, options)
  {
    hide Merge, Contains;
    var filled := before;
    handled := 0;
    for i := 0 to |chunk|
      invariant Ok(filled) == StoreChunk(before, chunk, i, offset, options)
      invariant handled == Handled(chunk, i, options)
    {
      var name := chunk[i].name;
      if Skipped(name, options) { continue; }
      var newName := name;
      if name.InLayer? {
        handled := Max(name.layer, handled);
        newName := InLayer(name.layer + offset, name.suffix);
      }
      var merged := MergeAcrossTp(NameKind(newName, options), chunk[i].shards, options.heads);
      if merged.Err? {
        FailureStays(before, chunk, i, offset, options);
        return Err(merged.error), handled;
      }
      filled := Store(filled, newName, merged.value);
    }
    state := Ok(filled);
  }

  lemma {:induction false} FailureStays<E>(before: StateDict<E>, chunk: seq<Entry<E>>, i: nat, offset: nat, options: Options)
    requires i < |chunk| && StoreChunk(before, chunk, i + 1, offset, options).Err?
    ensures StoreChunk(before, chunk, |chunk|, offset, options) == StoreChunk(before, chunk, i + 1, offset, options)
    decreases |chunk| - i
  {
    hide StoreEntry;
    if i + 1 < |chunk| {
      assert StoreChunk(before, chunk, i + 2, offset, options) == StoreChunk(before, chunk, i + 1, offset, options);
      FailureStays(before, chunk, i + 1, offset, options);
    }
  }

  method Convert<E>(stages: Stages<E>, options: Options) returns (state: Result<StateDict<E>>)
    requires stages != [] && EnoughChunks(stages)
    ensures state == Converted(stages, Chunks(stages), 0, options)
  {
    hide StoreChunk, Handled;
    var filled: StateDict<E> := map[];
    var cumulated := 0;
    ghost var handled := HandledOf(stages, options);
    for v := 0 to |stages[0]|
      invariant Ok(filled) == Converted(stages, v, 0, options)
      invariant cumulated == Cumulated(handled, |stages|, v, 0)
    {
      for p := 0 to |stages|
        invariant Ok(filled) == Converted(stages, v, p, options)
        invariant cumulated == Cumulated(handled, |stages|, v, p)
      {
        var next, count := ConvertChunk(filled, stages[p][v], cumulated, options);
        if next.Err? {
          ConversionFails(stages, v, p + 1, options);
          return next;
        }
        filled := next.value;
        cumulated := cumulated + count + 1;
      }
    }
    state := Ok(filled);
  }

  lemma {:induction false} ConversionFails<E>(stages: Stages<E>, v: nat, p: nat, options: Options)
    requires EnoughChunks(stages) && v < Chunks(stages) && p <= |stages| && Converted(stages, v, p, options).Err?
    ensures Converted(stages, Chunks(stages), 0, options) == Converted(stages, v, p, options)
    decreases Chunks(stages) - v, |stages| - p
  {
    hide StoreChunk, HandledOf, Cumulated;
    if p < |stages| {
      assert Converted(stages, v, p + 1, options) == Converted(stages, v, p, options);
      ConversionFails(stages, v, p + 1, options);
    } else {
      assert Converted(stages, v + 1, 0, options) == Converted(stages, v, p, options);
      if v + 1 < Chunks(stages) { ConversionFails(stages, v + 1, 0, options); }
    }
  }

  // ----- splitting a model and merging it gives the model

  function PartOf<E>(merged: Merged<E>, part: Part): Option<Tensor<E>> {
    match merged
    case Whole(t) => if part == All then Some(t) else None
    case GateAndUp(gate, up) => if part == Gate then Some(gate) else if part == Up then Some(up) else None
    case QueryKeyValue(q, k, v) =>
      if part == Query then Some(q) else if part == Key then Some(k) else if part == Value then Some(v) else None
  }

  /** Everything in the state is a part of the model under a key that is not left out. */
  ghost predicate Faithful<E>(state: StateDict<E>, weight: Name -> Merged<E>, options: Options) {
    forall key :: key in state ==> PartOf(weight(key.name), key.part) == Some(state[key]) && !LeftOut(key.name, options)
  }

  /** All parts of this name are in the state. */
  ghost predicate Restored<E>(state: StateDict<E>, weight: Name -> Merged<E>, name: Name) {
    forall part :: PartOf(weight(name), part).Some? ==> StateKey(name, part) in state
  }

  /** The keys that the merger leaves out: extra state, and with tied embeddings the output layer. */
  ghost predicate LeftOut(name: Name, options: Options) {
    || Occurs("extra_state", KeyText(name))
    || (options.tieWordEmbedding && Occurs("output_layer", KeyText(name)))
  }

  lemma {:induction false} SkippedIsLeftOut(name: Name, options: Options)
    ensures Skipped(name, options) <==> LeftOut(name, options)
  {
    hide Contains, Occurs;
    ContainsOccurs(KeyText(name), "extra_state");
    ContainsOccurs(KeyText(name), "output_layer");
  }

  /** The entry holds the model's shards for its global name, sharded as the text of the key says. */
  ghost predicate SplitEntry<E>(entry: Entry<E>, offset: nat, weight: Name -> Merged<E>, plan: Name -> Plan, options: Options) {
    LeftOut(entry.name, options) ||
    var name := Shift(entry.name, offset);
    ShardedByText(KeyText(name), options.isValueModel, weight(name), plan(name), options.heads, entry.shards)
  }

  ghost predicate SplitChunk<E>(chunk: seq<Entry<E>>, offset: nat, weight: Name -> Merged<E>, plan: Name -> Plan, options: Options) {
    forall i :: 0 <= i < |chunk| ==> SplitEntry(chunk[i], offset, weight, plan, options)
  }

  /** The highest layer that the chunk names is the given one; a chunk that names none counts as one layer. */
  ghost predicate LastLayerIs<E>(chunk: seq<Entry<E>>, last: nat, options: Options) {
    && (forall i :: 0 <= i < |chunk| && !LeftOut(chunk[i].name, options) && chunk[i].name.InLayer? ==> chunk[i].name.layer <= last)
    && (last == 0 || exists i :: 0 <= i < |chunk| && !LeftOut(chunk[i].name, options) && chunk[i].name.InLayer? && chunk[i].name.layer == last)
  }

  lemma {:induction false} HandledIsHighest<E>(chunk: seq<Entry<E>>, n: nat, options: Options)
    requires n <= |chunk|
    ensures forall i :: 0 <= i < n && !LeftOut(chunk[i].name, options) && chunk[i].name.InLayer? ==>
      chunk[i].name.layer <= Handled(chunk, n, options)
    ensures Handled(chunk, n, options) == 0 ||
      exists i :: 0 <= i < n && !LeftOut(chunk[i].name, options) && chunk[i].name.InLayer? && chunk[i].name.layer == Handled(chunk, n, options)
  {
    hide LeftOut, Skipped;
    if n > 0 {
      HandledIsHighest(chunk, n - 1, options);
      SkippedIsLeftOut(chunk[n - 1].name, options);
    }
  }

  lemma {:induction false} HandledWhen<E>(chunk: seq<Entry<E>>, last: nat, options: Options)
    ensures Handled(chunk, |chunk|, options) == last <==> LastLayerIs(chunk, last, options)
  {
    hide LeftOut, Handled;
    HandledIsHighest(chunk, |chunk|, options);
  }

  /** The model is dealt to the stages, `per` layers to a chunk, and every chunk that another one follows names
      its last layer. */
  ghost predicate SplitModel<E>(stages: Stages<E>, per: nat, weight: Name -> Merged<E>, plan: Name -> Plan, options: Options) {
    && EnoughChunks(stages)
    && (forall p, v :: 0 <= p < |stages| && 0 <= v < Chunks(stages) ==>
        SplitChunk(stages[p][v], LayerOffset(p, v, |stages|, Chunks(stages), Chunks(stages) * |stages| * per), weight, plan, options))
    && forall p, v :: 0 <= p < |stages| && 0 <= v < Chunks(stages) && !(p == |stages| - 1 && v == Chunks(stages) - 1) ==>
         per >= 1 && LastLayerIs(stages[p][v], per - 1, options)
  }

  lemma {:induction false} SplitIsComplete<E>(stages: Stages<E>, per: nat, weight: Name -> Merged<E>, plan: Name -> Plan, options: Options)
    requires SplitModel(stages, per, weight, plan, options)
    ensures Complete(HandledOf(stages, options), |stages|, Chunks(stages), per)
  {
    hide Handled, LastLayerIs, SplitChunk, LayerOffset;
    forall p, v | 0 <= p < |stages| && 0 <= v < Chunks(stages) && !(p == |stages| - 1 && v == Chunks(stages) - 1)
      ensures HandledOf(stages, options)(p, v) + 1 == per
    {
      HandledWhen(stages[p][v], per - 1, options);
    }
  }

  lemma {:induction false} StoreFaithful<E>(state: StateDict<E>, name: Name, weight: Name -> Merged<E>, options: Options)
    requires Faithful(state, weight, options) && !LeftOut(name, options)
    ensures var after := Store(state, name, weight(name));
      Faithful(after, weight, options) && Restored(after, weight, name) && state.Keys <= after.Keys
  {
    match weight(name)
    case Whole(_) =>
    case GateAndUp(_, _) =>
    case QueryKeyValue(_, _, _) =>
  }

  lemma {:induction false} ShiftKeepsText(name: Name, offset: nat, options: Options)
    ensures LeftOut(Shift(name, offset), options) == LeftOut(name, options)
  {
    hide Occurs;
  }

  lemma {:induction false} EntryRestored<E>(state: StateDict<E>, entry: Entry<E>, offset: nat, weight: Name -> Merged<E>, plan: Name -> Plan, options: Options)
    requires Faithful(state, weight, options) && SplitEntry(entry, offset, weight, plan, options)
    ensures var after := StoreEntry(state, entry, offset, options);
      && after.Ok? && Faithful(after.value, weight, options) && state.Keys <= after.value.Keys
      && (LeftOut(entry.name, options) || Restored(after.value, weight, Shift(entry.name, offset)))
  {
    hide Store, Faithful, Restored, Merge, Shard, Shardable, Contains, Occurs, ShardedByText, LeftOut, Skipped, KindOf;
    SkippedIsLeftOut(entry.name, options);
    if !Skipped(entry.name, options) {
      var name := Shift(entry.name, offset);
      TextDecidesKind(KeyText(name), options.isValueModel, weight(name), plan(name), options.heads, entry.shards);
      MergeInvertsShard(NameKind(name, options), weight(name), plan(name), options.heads);
      ShiftKeepsText(entry.name, offset, options);
      StoreFaithful(state, name, weight, options);
    }
  }

  lemma {:induction false} StillRestored<E>(state: StateDict<E>, after: StateDict<E>, weight: Name -> Merged<E>, name: Name)
    requires state.Keys <= after.Keys && Restored(state, weight, name)
    ensures Restored(after, weight, name)
  {
  }

  lemma {:induction false} ChunkRestored<E>(state: StateDict<E>, chunk: seq<Entry<E>>, n: nat, offset: nat, weight: Name -> Merged<E>, plan: Name -> Plan, options: Options)
    requires n <= |chunk| && Faithful(state, weight, options) && SplitChunk(chunk, offset, weight, plan, options)
    ensures var after := StoreChunk(state, chunk, n, offset, options);
      && after.Ok? && Faithful(after.value, weight, options) && state.Keys <= after.value.Keys
      && forall i :: 0 <= i < n ==> LeftOut(chunk[i].name, options) || Restored(after.value, weight, Shift(chunk[i].name, offset))
  {
    hide StoreEntry, Faithful, Restored, SplitEntry, LeftOut;
    if n > 0 {
      ChunkRestored(state, chunk, n - 1, offset, weight, plan, options);
      var before := StoreChunk(state, chunk, n - 1, offset, options).value;
      EntryRestored(before, chunk[n - 1], offset, weight, plan, options);
      var after := StoreEntry(before, chunk[n - 1], offset, options).value;
      forall i | 0 <= i < n - 1 && !LeftOut(chunk[i].name, options) ensures Restored(after, weight, Shift(chunk[i].name, offset)) {
        StillRestored(before, after, weight, Shift(chunk[i].name, offset));
      }
    }
  }

  /** All keys of a chunk are in the state under their global names. */
  ghost predicate ChunkIn<E>(state: StateDict<E>, chunk: seq<Entry<E>>, offset: nat, weight: Name -> Merged<E>, options: Options) {
    forall i :: 0 <= i < |chunk| ==> LeftOut(chunk[i].name, options) || Restored(state, weight, Shift(chunk[i].name, offset))
  }

  lemma {:induction false} ChunkStaysIn<E>(state: StateDict<E>, after: StateDict<E>, chunk: seq<Entry<E>>, offset: nat, weight: Name -> Merged<E>, options: Options)
    requires state.Keys <= after.Keys && ChunkIn(state, chunk, offset, weight, options)
    ensures ChunkIn(after, chunk, offset, weight, options)
  {
    hide Restored, LeftOut;
    forall i | 0 <= i < |chunk| && !LeftOut(chunk[i].name, options) ensures Restored(after, weight, Shift(chunk[i].name, offset)) {
      StillRestored(state, after, weight, Shift(chunk[i].name, offset));
    }
  }

  function Offset<E>(stages: Stages<E>, p: nat, v: nat, per: nat): nat
    requires p < |stages| && v < Chunks(stages)
  {
    LayerOffset(p, v, |stages|, Chunks(stages), Chunks(stages) * |stages| * per)
  }

  /** The chunks before chunk v of stage p, in the order of the loops. */
  predicate Before(p': nat, v': nat, v: nat, p: nat) {
    v' < v || (v' == v && p' < p)
  }

  lemma {:induction false} ConvertedRestores<E>(stages: Stages<E>, v: nat, p: nat, per: nat, weight: Name -> Merged<E>, plan: Name -> Plan, options: Options)
    requires SplitModel(stages, per, weight, plan, options)
    requires p <= |stages| && v <= Chunks(stages) && (p > 0 ==> v < Chunks(stages))
    ensures var state := Converted(stages, v, p, options);
      && state.Ok? && Faithful(state.value, weight, options)
      && forall p', v' :: 0 <= p' < |stages| && 0 <= v' < Chunks(stages) && Before(p', v', v, p) ==>
           ChunkIn(state.value, stages[p'][v'], Offset(stages, p', v', per), weight, options)
    decreases v, p
  {
    hide Faithful, SplitChunk, LayerOffset, Cumulated, StoreChunk, ChunkIn, Complete, HandledOf, LastLayerIs;
    if p > 0 {
      ConvertedRestores(stages, v, p - 1, per, weight, plan, options);
      var before := Converted(stages, v, p - 1, options).value;
      var chunk, offset := stages[p - 1][v], Offset(stages, p - 1, v, per);
      SplitIsComplete(stages, per, weight, plan, options);
      RunningCountIsOffset(HandledOf(stages, options), |stages|, Chunks(stages), per);
      assert offset == Cumulated(HandledOf(stages, options), |stages|, v, p - 1);
      ChunkRestored(before, chunk, |chunk|, offset, weight, plan, options);
      var after := StoreChunk(before, chunk, |chunk|, offset, options).value;
      ChunkIsIn(after, chunk, offset, weight, options);
      forall p', v' | 0 <= p' < |stages| && 0 <= v' < Chunks(stages) && Before(p', v', v, p)
        ensures ChunkIn(after, stages[p'][v'], Offset(stages, p', v', per), weight, options)
      {
        if Before(p', v', v, p - 1) {
          ChunkStaysIn(before, after, stages[p'][v'], Offset(stages, p', v', per), weight, options);
        }
      }
    } else if v > 0 {
      ConvertedRestores(stages, v - 1, |stages|, per, weight, plan, options);
    } else {
      NothingFaithful(weight, options);
    }
  }

  lemma {:induction false} NothingFaithful<E>(weight: Name -> Merged<E>, options: Options)
    ensures Faithful(map[], weight, options)
  {
  }

  lemma {:induction false} ChunkIsIn<E>(state: StateDict<E>, chunk: seq<Entry<E>>, offset: nat, weight: Name -> Merged<E>, options: Options)
    requires forall i :: 0 <= i < |chunk| ==> LeftOut(chunk[i].name, options) || Restored(state, weight, Shift(chunk[i].name, offset))
    ensures ChunkIn(state, chunk, offset, weight, options)
  {
  }

  /** A model split over stages, chunks and tensor-parallel ranks is restored: the conversion succeeds, stores
      nothing but the model's tensors, and stores a layer's tensor for every layer when every chunk names it
      for each of its layers. */
  lemma {:induction false} ConvertRestores<E>(stages: Stages<E>, per: nat, weight: Name -> Merged<E>, plan: Name -> Plan, options: Options,
                                              suffix: string)
    requires stages != [] && SplitModel(stages, per, weight, plan, options)
    requires !LeftOut(InLayer(0, suffix), options)
    requires forall p, v :: 0 <= p < |stages| && 0 <= v < Chunks(stages) ==> NamesAll(stages[p][v], suffix, per)
    ensures var state := Converted(stages, Chunks(stages), 0, options);
      && state.Ok? && Faithful(state.value, weight, options)
      && (forall p, v :: 0 <= p < |stages| && 0 <= v < Chunks(stages) ==>
            ChunkIn(state.value, stages[p][v], Offset(stages, p, v, per), weight, options))
      && forall g :: 0 <= g < Chunks(stages) * |stages| * per ==> Restored(state.value, weight, InLayer(g, suffix))
  {
    hide LayerOffset, PerChunk, Converted, Faithful, Restored, LeftOut, Complete, SplitChunk, PlaceOf;
    ConvertedRestores(stages, Chunks(stages), 0, per, weight, plan, options);
    var state := Converted(stages, Chunks(stages), 0, options).value;
    var pp, vpp := |stages|, Chunks(stages);
    forall g | 0 <= g < vpp * pp * per ensures Restored(state, weight, InLayer(g, suffix)) {
      Arithmetic.Positive(vpp * pp, per);
      Arithmetic.Positive(vpp, pp);
      EvenLayers(pp, vpp, per);
      PlaceOfGlobal(g, pp, vpp, vpp * pp * per);
      var at := PlaceOf(g, pp, per);
      RestoredAt(state, stages[at.p][at.v], Offset(stages, at.p, at.v, per), weight, options, suffix, at.l, per);
    }
  }

  predicate NamesAll<E>(chunk: seq<Entry<E>>, suffix: string, per: nat) {
    forall l :: 0 <= l < per ==> exists i :: 0 <= i < |chunk| && chunk[i].name == InLayer(l, suffix)
  }

  lemma {:induction false} LeftOutBySuffix(l: nat, suffix: string, options: Options)
    ensures LeftOut(InLayer(l, suffix), options) == LeftOut(InLayer(0, suffix), options)
  {
    hide Occurs;
  }

  lemma {:induction false} RestoredAt<E>(state: StateDict<E>, chunk: seq<Entry<E>>, offset: nat, weight: Name -> Merged<E>, options: Options,
                                         suffix: string, l: nat, per: nat)
    requires ChunkIn(state, chunk, offset, weight, options) && NamesAll(chunk, suffix, per) && l < per
    requires !LeftOut(InLayer(0, suffix), options)
    ensures Restored(state, weight, InLayer(l + offset, suffix))
  {
    hide Restored, LeftOut;
    var i :| 0 <= i < |chunk| && chunk[i].name == InLayer(l, suffix);
    LeftOutBySuffix(l, suffix, options);
  }
}
