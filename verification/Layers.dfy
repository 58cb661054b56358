/**
 Renumbering the layers of a model that is split into pipeline stages (pp) and, inside each stage, into virtual
 stages (vpp): stage p holds chunks v = 0, 1, ..., and layers are dealt to all stages before the next chunk.
 Names come parsed, as a layer number with what follows it, or as a name outside the layers.
 */
module Layers {
  import opened Sequences
  import Arithmetic

  datatype Name = InLayer(layer: nat, suffix: string) | Plain(name: string)

  function Shift(name: Name, offset: nat): Name {
    match name
    case InLayer(layer, suffix) => InLayer(layer + offset, suffix)
    case Plain(_) => name
  }

  /** The layers in each chunk. */
  function PerChunk(layers: nat, pp: nat, vpp: nat): nat
    requires pp >= 1 && vpp >= 1
  {
    layers / pp / vpp
  }

  /** normalize_model_name: the global number of the chunk's first layer. */
  function LayerOffset(p: nat, v: nat, pp: nat, vpp: nat, layers: nat): nat
    requires pp >= 1 && vpp >= 1
  {
    if vpp > 1 then
      var perPp: nat := layers / pp;
      var perVpp: nat := perPp / vpp;
      var ppOffset: nat := perVpp * p;
      var perChunk: nat := perVpp * pp;
      var vppOffset: nat := perChunk * v;
      ppOffset + vppOffset
    else
      var perPp: nat := layers / pp;
      perPp * p
  }

  /** A layer's place: stage, chunk of the stage, layer of the chunk. */
  datatype Place = Place(p: nat, v: nat, l: nat)

  predicate IsPlace(at: Place, pp: nat, vpp: nat, per: nat) {
    at.p < pp && at.v < vpp && at.l < per
  }

  function Global(at: Place, pp: nat, vpp: nat, layers: nat): nat
    requires pp >= 1 && vpp >= 1
  {
    LayerOffset(at.p, at.v, pp, vpp, layers) + at.l
  }

  function PlaceOf(g: nat, pp: nat, per: nat): Place
    requires pp >= 1 && per >= 1
  {
    Place(g / per % pp, g / per / pp, g % per)
  }

  /** Chunks are numbered v * pp + p, and each starts after the layers of those before it. */
  lemma {:induction false} OffsetClosedForm(p: nat, v: nat, pp: nat, vpp: nat, layers: nat)
    requires p < pp && v < vpp
    ensures LayerOffset(p, v, pp, vpp, layers) == (v * pp + p) * PerChunk(layers, pp, vpp)
  {
    var per := PerChunk(layers, pp, vpp);
    Arithmetic.Distribute(v * pp, p, per);
    if vpp > 1 {
      assert per * pp * v == v * pp * per;
    } else {
      assert layers / pp / 1 == layers / pp;
    }
  }

  /** The even case: the chunks hold the number of layers they were given. */
  lemma {:induction false} EvenLayers(pp: nat, vpp: nat, per: nat)
    requires pp >= 1 && vpp >= 1
    ensures PerChunk(vpp * pp * per, pp, vpp) == per
  {
    assert vpp * pp * per == (per * vpp) * pp;
    Arithmetic.MultipleModulo(per * vpp, pp);
    Arithmetic.MultipleModulo(per, vpp);
  }

  lemma {:induction false} BelowProduct(a: nat, b: nat, m: nat, n: nat)
    requires a < m && b < n
    ensures a * n + b < m * n
  {
    Arithmetic.MulMonotone(a + 1, m, n);
    Arithmetic.Distribute(a, 1, n);
  }

  /** From places to global layers: in range, and the place can be read off again, so no two places share a layer. */
  lemma {:induction false} GlobalOfPlace(at: Place, pp: nat, vpp: nat, layers: nat)
    requires pp >= 1 && vpp >= 1 && IsPlace(at, pp, vpp, PerChunk(layers, pp, vpp))
    ensures Global(at, pp, vpp, layers) < vpp * pp * PerChunk(layers, pp, vpp)
    ensures PlaceOf(Global(at, pp, vpp, layers), pp, PerChunk(layers, pp, vpp)) == at
  {
    var per := PerChunk(layers, pp, vpp);
    OffsetClosedForm(at.p, at.v, pp, vpp, layers);
    BelowProduct(at.v, at.p, vpp, pp);
    BelowProduct(at.v * pp + at.p, at.l, vpp * pp, per);
    Arithmetic.QuotientRemainder(Global(at, pp, vpp, layers), per, at.v * pp + at.p, at.l);
    Arithmetic.QuotientRemainder(at.v * pp + at.p, pp, at.v, at.p);
  }

  /** From global layers to places: every layer has one. */
  lemma {:induction false} PlaceOfGlobal(g: nat, pp: nat, vpp: nat, layers: nat)
    requires pp >= 1 && vpp >= 1 && g < vpp * pp * PerChunk(layers, pp, vpp)
    ensures PerChunk(layers, pp, vpp) >= 1
    ensures var at := PlaceOf(g, pp, PerChunk(layers, pp, vpp));
      IsPlace(at, pp, vpp, PerChunk(layers, pp, vpp)) && Global(at, pp, vpp, layers) == g
  {
    hide LayerOffset, PerChunk;
    var per := PerChunk(layers, pp, vpp);
    Arithmetic.Positive(vpp * pp, per);
    var chunk := g / per;
    Arithmetic.QuotientBound(g, vpp * pp, per);
    Arithmetic.QuotientBound(chunk, vpp, pp);
    var at := PlaceOf(g, pp, per);
    OffsetClosedForm(at.p, at.v, pp, vpp, layers);
    assert at.v * pp + at.p == chunk;
  }

  // ----- dictionaries filled in order

  /** Later entries replace earlier ones. */
  function MapOf<K, V>(entries: seq<(K, V)>): (m: map<K, V>)
    ensures forall k :: k in m ==> (k, m[k]) in entries
    ensures forall e :: e in entries ==> e.0 in m
  {
    if entries == [] then map[]
    else
      var last := |entries| - 1;
      assert entries == entries[..last] + [entries[last]];
      MapOf(entries[..last])[entries[last].0 := entries[last].1]
  }

  lemma {:induction false} MapOfAppend<K, V>(entries: seq<(K, V)>, e: (K, V))
    ensures MapOf(entries + [e]) == MapOf(entries)[e.0 := e.1]
  {
    assert (entries + [e])[..|entries|] == entries;
  }

  lemma {:induction false} InFlatten<T>(parts: seq<seq<T>>, x: T)
    ensures x in Flatten(parts) <==> exists i :: 0 <= i < |parts| && x in parts[i]
  {
    if parts != [] {
      InFlatten(parts[1..], x);
      if x in Flatten(parts[1..]) {
        var i :| 0 <= i < |parts[1..]| && x in parts[1..][i];
        assert x in parts[i + 1];
      }
      if i :| 0 <= i < |parts| && x in parts[i] {
        if i > 0 { assert x in parts[1..][i - 1]; }
      }
    }
  }

  // ----- normalize_pp_vpp_params

  /** One chunk's parameters in the order of its dictionary. */
  type Chunk<P> = seq<(Name, P)>

  function Shifted<P>(offset: nat): ((Name, P)) -> (Name, P) {
    (e: (Name, P)) => (Shift(e.0, offset), e.1)
  }

  function ChunkEntries<P>(params: seq<seq<Chunk<P>>>, layers: nat, p: nat, v: nat): seq<(Name, P)>
    requires p < |params| && v < |params[p]|
  {
    Map(Shifted(LayerOffset(p, v, |params|, |params[p]|, layers)), params[p][v])
  }

  function StageEntries<P>(params: seq<seq<Chunk<P>>>, layers: nat, p: nat): (r: seq<seq<(Name, P)>>)
    requires p < |params|
    ensures |r| == |params[p]| && forall v :: 0 <= v < |r| ==> r[v] == ChunkEntries(params, layers, p, v)
  {
    seq(|params[p]|, v requires 0 <= v < |params[p]| => ChunkEntries(params, layers, p, v))
  }

  function Entries<P>(params: seq<seq<Chunk<P>>>, layers: nat): (r: seq<seq<(Name, P)>>)
    ensures |r| == |params| && forall p :: 0 <= p < |r| ==> r[p] == Flatten(StageEntries(params, layers, p))
  {
    seq(|params|, p requires 0 <= p < |params| => Flatten(StageEntries(params, layers, p)))
  }

  lemma {:induction false} FlattenNext<T>(parts: seq<seq<T>>, n: nat)
    requires n < |parts|
    ensures Flatten(parts[..n + 1]) == Flatten(parts[..n]) + parts[n]
  {
    assert parts[..n + 1] == parts[..n] + [parts[n]];
    FlattenAppend(parts[..n], [parts[n]]);
    assert Flatten([parts[n]]) == parts[n] + Flatten([]);
  }

  lemma {:induction false} NoEntries<P>()
    ensures MapOf<Name, P>([]) == map[] && Flatten<(Name, P)>([]) == []
  {
  }

  method NormalizePpVppParams<P>(params: seq<seq<Chunk<P>>>, layers: nat) returns (normalized: map<Name, P>)
    ensures normalized == MapOf(Flatten(Entries(params, layers)))
  {
    hide ChunkEntries, MapOf, Flatten;
    normalized := map[];
    ghost var done := [];
    NoEntries<P>();
    for p := 0 to |params|
      invariant done == Flatten(Entries(params, layers)[..p])
      invariant normalized == MapOf(done)
    {
      ghost var before := done;
      for v := 0 to |params[p]|
        invariant done == before + Flatten(StageEntries(params, layers, p)[..v])
        invariant normalized == MapOf(done)
      {
        normalized, done := AddChunk(params, layers, p, v, normalized, done);
        FlattenNext(StageEntries(params, layers, p), v);
      }
      assert StageEntries(params, layers, p)[..|params[p]|] == StageEntries(params, layers, p);
      FlattenNext(Entries(params, layers), p);
    }
    assert Entries(params, layers)[..|params|] == Entries(params, layers);
  }

  /** The innermost loop. */
  method AddChunk<P>(params: seq<seq<Chunk<P>>>, layers: nat, p: nat, v: nat, filled: map<Name, P>, ghost before: seq<(Name, P)>)
    returns (normalized: map<Name, P>, ghost done: seq<(Name, P)>)
    requires p < |params| && v < |params[p]| && filled == MapOf(before)
    ensures done == before + ChunkEntries(params, layers, p, v)
    ensures normalized == MapOf(before + ChunkEntries(params, layers, p, v))
  {
    hide LayerOffset, MapOf;
    normalized, done := filled, before;
    ghost var entries := ChunkEntries(params, layers, p, v);
    for i := 0 to |params[p][v]|
      invariant done == before + entries[..i] && normalized == MapOf(done)
    {
      var (name, param) := params[p][v][i];
      var offset := LayerOffset(p, v, |params|, |params[p]|, layers);
      normalized := normalized[Shift(name, offset) := param];
      MapOfAppend(done, entries[i]);
      done := done + [entries[i]];
      assert entries[..i + 1] == entries[..i] + [entries[i]];
    }
    assert entries[..|entries|] == entries;
  }

  /** Every stage has vpp chunks, chunks name each parameter once, and their layer numbers are below the
      layers that each chunk holds. */
  ghost predicate WellSplit<P>(params: seq<seq<Chunk<P>>>, vpp: nat, layers: nat) {
    && |params| >= 1 && vpp >= 1
    && (forall p :: 0 <= p < |params| ==> |params[p]| == vpp)
    && forall p, v :: 0 <= p < |params| && 0 <= v < vpp ==> WellNamed(params[p][v], PerChunk(layers, |params|, vpp))
  }

  ghost predicate WellNamed<P>(chunk: Chunk<P>, per: nat) {
    && (forall i :: 0 <= i < |chunk| ==> chunk[i].0.InLayer? ==> chunk[i].0.layer < per)
    && forall i, j :: 0 <= i < j < |chunk| ==> chunk[i].0 != chunk[j].0
  }

  /** Which chunk and parameter an entry of the dictionary is from. */
  lemma {:induction false} EntryOrigin<P>(params: seq<seq<Chunk<P>>>, layers: nat, e: (Name, P)) returns (p: nat, v: nat, i: nat)
    requires e in Flatten(Entries(params, layers))
    ensures p < |params| && v < |params[p]| && i < |params[p][v]|
    ensures e == (Shift(params[p][v][i].0, LayerOffset(p, v, |params|, |params[p]|, layers)), params[p][v][i].1)
  {
    InFlatten(Entries(params, layers), e);
    p :| 0 <= p < |params| && e in Entries(params, layers)[p];
    InFlatten(StageEntries(params, layers, p), e);
    v :| 0 <= v < |params[p]| && e in StageEntries(params, layers, p)[v];
    var entries := ChunkEntries(params, layers, p, v);
    i :| 0 <= i < |entries| && entries[i] == e;
  }

  lemma {:induction false} EntryIncluded<P>(params: seq<seq<Chunk<P>>>, layers: nat, p: nat, v: nat, i: nat)
    requires p < |params| && v < |params[p]| && i < |params[p][v]|
    ensures (Shift(params[p][v][i].0, LayerOffset(p, v, |params|, |params[p]|, layers)), params[p][v][i].1)
      in Flatten(Entries(params, layers))
  {
    var entries := ChunkEntries(params, layers, p, v);
    var e := entries[i];
    assert e in StageEntries(params, layers, p)[v];
    InFlatten(StageEntries(params, layers, p), e);
    assert e in Entries(params, layers)[p];
    InFlatten(Entries(params, layers), e);
  }

  /** The name occurs in no other chunk. */
  ghost predicate OnlyIn<P>(params: seq<seq<Chunk<P>>>, p: nat, v: nat, name: Name) {
    forall p', v', i :: 0 <= p' < |params| && 0 <= v' < |params[p']| && 0 <= i < |params[p'][v']| && params[p'][v'][i].0 == name
      ==> p' == p && v' == v
  }

  /** No parameter of a layer is overwritten, nor is one outside the layers that only one chunk names. */
  lemma {:induction false} NothingOverwritten<P>(params: seq<seq<Chunk<P>>>, vpp: nat, layers: nat, p: nat, v: nat, i: nat)
    requires WellSplit(params, vpp, layers) && p < |params| && v < vpp && i < |params[p][v]|
    requires params[p][v][i].0.InLayer? || OnlyIn(params, p, v, params[p][v][i].0)
    ensures var key := Shift(params[p][v][i].0, LayerOffset(p, v, |params|, vpp, layers));
      var normalized := MapOf(Flatten(Entries(params, layers)));
      key in normalized && normalized[key] == params[p][v][i].1
  {
    hide Entries, LayerOffset, PerChunk;
    var (name, value) := params[p][v][i];
    var key := Shift(name, LayerOffset(p, v, |params|, vpp, layers));
    var normalized := MapOf(Flatten(Entries(params, layers)));
    EntryIncluded(params, layers, p, v, i);
    var p', v', i' := EntryOrigin(params, layers, (key, normalized[key]));
    SameKeySameChunk(params, vpp, layers, p, v, i, p', v', i');
  }

  lemma {:induction false} SameKeySameChunk<P>(params: seq<seq<Chunk<P>>>, vpp: nat, layers: nat, p: nat, v: nat, i: nat, p': nat, v': nat, i': nat)
    requires WellSplit(params, vpp, layers)
    requires p < |params| && v < vpp && i < |params[p][v]| && p' < |params| && v' < vpp && i' < |params[p'][v']|
    requires params[p][v][i].0.InLayer? || OnlyIn(params, p, v, params[p][v][i].0)
    requires Shift(params[p][v][i].0, LayerOffset(p, v, |params|, vpp, layers))
          == Shift(params[p'][v'][i'].0, LayerOffset(p', v', |params|, vpp, layers))
    ensures p == p' && v == v' && i == i'
  {
    hide LayerOffset, PerChunk, PlaceOf;
    var name, name' := params[p][v][i].0, params[p'][v'][i'].0;
    assert WellNamed(params[p][v], PerChunk(layers, |params|, vpp));
    assert WellNamed(params[p'][v'], PerChunk(layers, |params|, vpp));
    if name.InLayer? {
      GlobalOfPlace(Place(p, v, name.layer), |params|, vpp, layers);
      GlobalOfPlace(Place(p', v', name'.layer), |params|, vpp, layers);
    }
    assert p == p' && v == v' && name == name';
  }

  // ----- the running count of the checkpoint merger

  /** The layers before chunk v of stage p, counted over the chunks in the order of the loops (chunks outside,
      stages inside) by the highest local layer number plus one. */
  function Cumulated(handled: (nat, nat) -> nat, pp: nat, v: nat, p: nat): nat
    decreases v, p
  {
    if p > 0 then Cumulated(handled, pp, v, p - 1) + handled(p - 1, v) + 1
    else if v > 0 then Cumulated(handled, pp, v - 1, pp)
    else 0
  }

  /** Every chunk that another one follows ends with its last layer, number per - 1. */
  ghost predicate Complete(handled: (nat, nat) -> nat, pp: nat, vpp: nat, per: nat) {
    forall p, v :: 0 <= p < pp && 0 <= v < vpp && !(p == pp - 1 && v == vpp - 1) ==> handled(p, v) + 1 == per
  }

  ghost predicate CountIsOffset(handled: (nat, nat) -> nat, pp: nat, vpp: nat, layers: nat)
    requires pp >= 1 && vpp >= 1
  {
    forall p, v :: 0 <= p < pp && 0 <= v < vpp ==> Cumulated(handled, pp, v, p) == LayerOffset(p, v, pp, vpp, layers)
  }

  lemma {:induction false} CumulatedIs(handled: (nat, nat) -> nat, pp: nat, vpp: nat, v: nat, p: nat, per: nat)
    requires v < vpp && p <= pp && !(p == pp && v == vpp - 1) && Complete(handled, pp, vpp, per)
    ensures Cumulated(handled, pp, v, p) == (v * pp + p) * per
    decreases v, p
  {
    if p > 0 {
      CumulatedIs(handled, pp, vpp, v, p - 1, per);
      assert handled(p - 1, v) + 1 == per;
      Arithmetic.Distribute(v * pp + (p - 1), 1, per);
    } else if v > 0 {
      CumulatedIs(handled, pp, vpp, v - 1, pp, per);
      Arithmetic.Distribute(v - 1, 1, pp);
    }
  }

  /** The running count is the closed-form offset at every chunk exactly when every chunk that another one
      follows ends with its last layer. */
  lemma {:induction false} RunningCountIsOffset(handled: (nat, nat) -> nat, pp: nat, vpp: nat, per: nat)
    requires pp >= 1 && vpp >= 1
    ensures CountIsOffset(handled, pp, vpp, vpp * pp * per) <==> Complete(handled, pp, vpp, per)
  {
    hide LayerOffset, PerChunk, Cumulated;
    EvenLayers(pp, vpp, per);
    forall p, v | 0 <= p < pp && 0 <= v < vpp
      ensures LayerOffset(p, v, pp, vpp, vpp * pp * per) == (v * pp + p) * per
    {
      OffsetClosedForm(p, v, pp, vpp, vpp * pp * per);
    }
    if Complete(handled, pp, vpp, per) {
      forall p, v | 0 <= p < pp && 0 <= v < vpp ensures Cumulated(handled, pp, v, p) == (v * pp + p) * per {
        CumulatedIs(handled, pp, vpp, v, p, per);
      }
    }
    if CountIsOffset(handled, pp, vpp, vpp * pp * per) {
      forall p, v | 0 <= p < pp && 0 <= v < vpp && !(p == pp - 1 && v == vpp - 1) ensures handled(p, v) + 1 == per {
        StepGivesHandled(handled, pp, vpp, per, p, v);
      }
    }
  }

  lemma {:induction false} StepGivesHandled(handled: (nat, nat) -> nat, pp: nat, vpp: nat, per: nat, p: nat, v: nat)
    requires p < pp && v < vpp && !(p == pp - 1 && v == vpp - 1)
    requires forall p', v' :: 0 <= p' < pp && 0 <= v' < vpp ==> Cumulated(handled, pp, v', p') == (v' * pp + p') * per
    ensures handled(p, v) + 1 == per
  {
    Arithmetic.Distribute(v * pp + p, 1, per);
    assert Cumulated(handled, pp, v, p) == (v * pp + p) * per;
    if p + 1 < pp {
      assert Cumulated(handled, pp, v, p + 1) == (v * pp + (p + 1)) * per;
    } else {
      Arithmetic.Distribute(v, 1, pp);
      assert Cumulated(handled, pp, v + 1, 0) == ((v + 1) * pp + 0) * per;
    }
  }
}
