/**
 The shared parameter buffers: a buffer for each element type, allocated for all parameters of that type, and
 the parameters re-bound to views into it. The parameters come in the order of their names.
 */
module MemoryBuffer {
  import opened Sequences
  import opened MemoryLayout

  /** A view into one-dimensional data; the shape is only its number of elements. */
  datatype View<V> = View(data: array<V>, start: nat, count: nat) {
    ghost predicate InRange() {
      start + count <= data.Length
    }

    ghost function Read(): seq<V>
      requires InRange()
      reads data
    {
      data[start..start + count]
    }
  }

  class Buffer<V> {
    const numel: nat
    const dtype: DType
    const data: array<V>

    /** torch.zeros: every element starts as the given zero. */
    constructor (numel: nat, dtype: DType, zero: V)
      ensures this.numel == numel && this.dtype == dtype
      ensures fresh(data) && data.Length == numel && forall i :: 0 <= i < numel ==> data[i] == zero
    {
      this.numel, this.dtype := numel, dtype;
      data := new V[numel](_ => zero);
    }

    predicate Valid() {
      data.Length == numel
    }

    /** A view of `count` elements from `start`, refused when it would leave the buffer. */
    method Get(count: nat, start: nat) returns (view: Result<View<V>>)
      requires Valid()
      ensures view == if start + count <= numel then Ok(View(data, start, count)) else Err(AssertionFailed)
      ensures view.Ok? ==> view.value.InRange()
    {
      if start + count > numel { return Err(AssertionFailed); }
      return Ok(View(data, start, count));
    }
  }

  /** A parameter of the module; its data is a view that can be re-bound. */
  class Parameter<V> {
    const dtype: DType
    var data: View<V>

    constructor (dtype: DType, data: View<V>)
      ensures this.dtype == dtype && this.data == data
    {
      this.dtype, this.data := dtype, data;
    }
  }

  /** One buffer for each element type, no two sharing data. */
  ghost predicate Separate<V>(buffers: map<DType, Buffer<V>>) {
    && (forall d :: d in buffers ==> buffers[d].Valid())
    && forall d, e :: d in buffers && e in buffers && d != e ==> buffers[d].data != buffers[e].data
  }

  function Sizes<V>(buffers: map<DType, Buffer<V>>): map<DType, nat> {
    map d | d in buffers :: buffers[d].numel
  }

  /** build_memory_buffer: first the totals, in the order of first use, then a buffer for each. */
  method BuildMemoryBuffer<V>(metas: seq<Meta>, zero: V) returns (order: seq<DType>, buffers: map<DType, Buffer<V>>)
    ensures order == FirstSeen(metas, |metas|)
    ensures Separate(buffers) && Sizes(buffers) == SizesFor(metas)
    ensures forall d :: d in buffers ==> buffers[d].dtype == d && fresh(buffers[d]) && fresh(buffers[d].data)
    ensures forall d :: d in buffers ==> forall i :: 0 <= i < buffers[d].numel ==> buffers[d].data[i] == zero
  {
    hide Padded, Bits;
    order := [];
    var totals: map<DType, nat> := map[];
    for i := 0 to |metas|
      invariant order == FirstSeen(metas, i)
      invariant forall d :: d in totals <==> d in order
      invariant forall d :: d in totals ==> totals[d] == Offset(metas, i, d, None)
    {
      var dtype := metas[i].dtype;
      if dtype !in totals {
        NotYetSeen(metas, i, dtype);
        order := order + [dtype];
        totals := totals[dtype := 0];
      }
      totals := totals[dtype := totals[dtype] + Padded(metas[i].numel, dtype)];
    }
    buffers := Allocate(order, totals, zero);
  }

  method Allocate<V>(order: seq<DType>, totals: map<DType, nat>, zero: V) returns (buffers: map<DType, Buffer<V>>)
    requires forall d :: d in totals <==> d in order
    ensures Separate(buffers) && Sizes(buffers) == totals
    ensures forall d :: d in buffers ==> buffers[d].dtype == d && fresh(buffers[d]) && fresh(buffers[d].data)
    ensures forall d :: d in buffers ==> forall i :: 0 <= i < buffers[d].numel ==> buffers[d].data[i] == zero
  {
    buffers := map[];
    for i := 0 to |order|
      invariant forall d :: d in buffers <==> d in order[..i]
      invariant Separate(buffers)
      invariant forall d :: d in buffers ==> buffers[d].numel == totals[d]
      invariant forall d :: d in buffers ==> buffers[d].dtype == d && fresh(buffers[d]) && fresh(buffers[d].data)
      invariant forall d :: d in buffers ==> forall j :: 0 <= j < buffers[d].numel ==> buffers[d].data[j] == zero
    {
      var buffer := new Buffer(totals[order[i]], order[i], zero);
      buffers := buffers[order[i] := buffer];
    }
    assert order[..|order|] == order;
  }

  lemma {:induction false} NotYetSeen(metas: seq<Meta>, n: nat, d: DType)
    requires n <= |metas| && d !in FirstSeen(metas, n)
    ensures Offset(metas, n, d, None) == 0
  {
    if n > 0 { NotYetSeen(metas, n - 1, d); }
  }

  /** The view that parameter i gets. */
  function ViewOf<V>(metas: seq<Meta>, i: nat, leftover: Option<DType>, buffers: map<DType, Buffer<V>>): View<V>
    requires i < |metas| && metas[i].dtype in buffers
  {
    View(buffers[metas[i].dtype].data, Start(metas, i, leftover), metas[i].numel)
  }

  /** Every view starts on a 128-bit boundary. */
  ghost predicate OnBoundaries<V>(views: seq<View<V>>, metas: seq<Meta>)
    requires |views| == |metas|
  {
    forall i :: 0 <= i < |views| ==> views[i].start * Bits(metas[i].dtype) % 128 == 0
  }

  /** build_memory_reference: every parameter's view, or the failed range check. */
  method BuildMemoryReference<V>(metas: seq<Meta>, buffers: map<DType, Buffer<V>>) returns (views: Result<seq<View<V>>>)
    requires Separate(buffers)
    ensures views.Ok? <==> AllFit(metas, None, Sizes(buffers))
    ensures views.Ok? ==> |views.value| == |metas|
    ensures views.Ok? ==> forall i :: 0 <= i < |metas| ==>
      Fits(metas, i, None, Sizes(buffers)) && views.value[i] == ViewOf(metas, i, None, buffers) && views.value[i].InRange()
    ensures views.Ok? ==> OnBoundaries(views.value, metas)
  {
    hide Padded, Offset, Start, StepsWhole, AtOffsets;
    var starts: map<DType, nat> := map d | d in buffers :: 0;
    var result := [];
    NoOffsets(starts, metas, None);
    for i := 0 to |metas|
      invariant starts.Keys == buffers.Keys && AtOffsets(starts, metas, i, None)
      invariant |result| == i
      invariant forall j :: 0 <= j < i ==>
        Fits(metas, j, None, Sizes(buffers)) && result[j] == ViewOf(metas, j, None, buffers) && result[j].InRange()
    {
      var dtype := metas[i].dtype;
      if dtype !in buffers {
        assert !Fits(metas, i, None, Sizes(buffers));
        return Err(KeyMissing);
      }
      StartAt(starts, metas, i, None);
      var view := buffers[dtype].Get(metas[i].numel, starts[dtype]);
      if view.Err? {
        assert !Fits(metas, i, None, Sizes(buffers));
        return Err(view.error);
      }
      var step := Padded(metas[i].numel, dtype);
      StartsAdvance(metas, i, None, starts, dtype, step);
      starts := starts[dtype := starts[dtype] + step];
      result := result + [view.value];
    }
    NarrowLeftoverAligns(metas, None);
    return Ok(result);
  }

  /** buffer.copy_(values): only the viewed elements change. */
  method CopyInto<V>(view: View<V>, values: seq<V>)
    requires view.InRange() && |values| == view.count
    modifies view.data
    ensures view.Read() == values
    ensures forall k :: 0 <= k < view.start || view.start + view.count <= k < view.data.Length ==>
      view.data[k] == old(view.data[k])
  {
    for i := 0 to view.count
      invariant forall k :: 0 <= k < i ==> view.data[view.start + k] == values[k]
      invariant forall k :: 0 <= k < view.start || view.start + view.count <= k < view.data.Length ==>
        view.data[k] == old(view.data[k])
    {
      view.data[view.start + i] := values[i];
    }
  }

  // ----- build_memory_reference_from_module

  function MetasOf<V>(params: seq<Parameter<V>>): (r: seq<Meta>)
    reads params
    ensures |r| == |params| && forall i :: 0 <= i < |params| ==> r[i] == Meta(params[i].dtype, params[i].data.count)
  {
    seq(|params|, i requires 0 <= i < |params| reads params => Meta(params[i].dtype, params[i].data.count))
  }

  ghost function ViewsOf<V>(params: seq<Parameter<V>>): (r: seq<View<V>>)
    reads params
    ensures |r| == |params| && forall i :: 0 <= i < |params| ==> r[i] == params[i].data
  {
    seq(|params|, i requires 0 <= i < |params| reads params => params[i].data)
  }

  /** The view lies in no buffer. */
  ghost predicate Elsewhere<V>(view: View<V>, buffers: map<DType, Buffer<V>>) {
    forall d :: d in buffers ==> view.data != buffers[d].data
  }

  /** View j is the place of parameter j. */
  ghost predicate Placed<V>(views: seq<View<V>>, metas: seq<Meta>, j: nat, leftover: Option<DType>, buffers: map<DType, Buffer<V>>)
    requires |metas| == |views| && j < |views|
  {
    && Fits(metas, j, leftover, Sizes(buffers))
    && views[j] == ViewOf(metas, j, leftover, buffers) && views[j].InRange()
  }

  /** The first i views are the parameters' places; the others lie outside the buffers. */
  ghost predicate Progress<V>(views: seq<View<V>>, metas: seq<Meta>, i: nat, leftover: Option<DType>, buffers: map<DType, Buffer<V>>)
    requires |metas| == |views|
  {
    && i <= |views|
    && (forall j :: 0 <= j < |views| ==> metas[j].numel == views[j].count && views[j].InRange())
    && (forall j :: 0 <= j < i ==> Placed(views, metas, j, leftover, buffers))
    && (forall j :: i <= j < |views| ==> Elsewhere(views[j], buffers))
  }

  /** Writing the place of parameter i cannot be seen through any other view. */
  lemma {:induction false} OthersClear<V>(views: seq<View<V>>, metas: seq<Meta>, i: nat, j: nat, leftover: Option<DType>, buffers: map<DType, Buffer<V>>)
    requires Separate(buffers) && |metas| == |views| && Progress(views, metas, i, leftover, buffers)
    requires i < |views| && j < |views| && i != j && metas[i].dtype in buffers
    requires views[j].data == buffers[metas[i].dtype].data
    ensures views[j].start + views[j].count <= Start(metas, i, leftover)
  {
    assert j < i;
    assert Placed(views, metas, j, leftover, buffers);
    assert metas[j].dtype == metas[i].dtype;
    ViewsDisjoint(metas, j, i, leftover);
  }

  lemma {:induction false} ProgressStep<V>(views: seq<View<V>>, metas: seq<Meta>, i: nat, leftover: Option<DType>, buffers: map<DType, Buffer<V>>)
    requires Separate(buffers) && |metas| == |views| && i < |views| && Progress(views, metas, i, leftover, buffers)
    requires Fits(metas, i, leftover, Sizes(buffers))
    ensures Progress(views[i := ViewOf(metas, i, leftover, buffers)], metas, i + 1, leftover, buffers)
  {
    FitsInRange(metas, i, leftover, buffers);
    var after := views[i := ViewOf(metas, i, leftover, buffers)];
    forall j | 0 <= j < i ensures Placed(after, metas, j, leftover, buffers) {
      assert Placed(views, metas, j, leftover, buffers);
    }
  }

  lemma {:induction false} FitsInRange<V>(metas: seq<Meta>, i: nat, leftover: Option<DType>, buffers: map<DType, Buffer<V>>)
    requires Separate(buffers) && i < |metas| && Fits(metas, i, leftover, Sizes(buffers))
    ensures metas[i].dtype in buffers && ViewOf(metas, i, leftover, buffers).InRange()
  {
  }

  ghost predicate Current<V>(params: seq<Parameter<V>>, metas: seq<Meta>, views: seq<View<V>>)
    reads params
  {
    && |views| == |params| == |metas|
    && (forall j, k :: 0 <= j < k < |params| ==> params[j] != params[k])
    && forall j :: 0 <= j < |params| ==> params[j].data == views[j] && metas[j].dtype == params[j].dtype
  }

  /** One parameter: take its place in the buffer, copy its values there if wanted, and re-bind it. */
  method Rebind<V>(param: Parameter<V>, buffer: Buffer<V>, start: nat, maintain: bool) returns (failed: Option<Failure>)
    requires buffer.Valid() && param.data.InRange() && param.data.data != buffer.data
    modifies param, buffer.data
    ensures failed.None? <==> start + old(param.data.count) <= buffer.numel
    ensures failed.Some? ==> param.data == old(param.data) && buffer.data[..] == old(buffer.data[..])
    ensures failed.None? ==>
      && param.data == View(buffer.data, start, old(param.data.count)) && param.data.InRange()
      && (maintain ==> param.data.Read() == old(param.data.Read()))
      && (!maintain ==> buffer.data[..] == old(buffer.data[..]))
      && forall k :: 0 <= k < start || start + old(param.data.count) <= k < buffer.numel ==>
           buffer.data[k] == old(buffer.data[k])
  {
    var view := buffer.Get(param.data.count, start);
    if view.Err? { return Some(view.error); }
    if maintain {
      var values := param.data.data[param.data.start..param.data.start + param.data.count];
      CopyInto(view.value, values);
    }
    param.data := view.value;
    return None;
  }

  /** On success parameter i gets its place, and no other parameter notices. */
  method PlaceNext<V>(params: seq<Parameter<V>>, ghost metas: seq<Meta>, ghost views: seq<View<V>>, i: nat, ghost leftover: Option<DType>,
                      buffers: map<DType, Buffer<V>>, start: nat, maintain: bool)
    returns (failed: Option<Failure>)
    requires Separate(buffers) && Current(params, metas, views) && i < |params| && Progress(views, metas, i, leftover, buffers)
    requires params[i].dtype in buffers && start == Start(metas, i, leftover)
    modifies params[i], buffers[params[i].dtype].data
    ensures failed.None? <==> Fits(metas, i, leftover, Sizes(buffers))
    ensures failed.None? ==>
      var place := ViewOf(metas, i, leftover, buffers);
      && Current(params, metas, views[i := place]) && place.InRange()
      && (maintain ==> place.Read() == old(views[i].Read()))
    ensures failed.Some? ==> Current(params, metas, views) && views[i].Read() == old(views[i].Read())
    ensures failed.Some? || !maintain ==> buffers[params[i].dtype].data[..] == old(buffers[params[i].dtype].data[..])
    ensures forall j :: 0 <= j < |params| && j != i ==> views[j].InRange() && views[j].Read() == old(views[j].Read())
  {
    hide Offset, Step;
    var dtype := params[i].dtype;
    failed := Rebind(params[i], buffers[dtype], start, maintain);
    forall j | 0 <= j < |params| && j != i
      ensures views[j].Read() == old(views[j].Read())
    {
      if views[j].data == buffers[dtype].data { OthersClear(views, metas, i, j, leftover, buffers); }
    }
  }

  ghost predicate AtOffsets(starts: map<DType, nat>, metas: seq<Meta>, n: nat, leftover: Option<DType>)
    requires n <= |metas|
  {
    forall d :: d in starts ==> starts[d] == Offset(metas, n, d, leftover)
  }

  lemma {:induction false} NoOffsets(starts: map<DType, nat>, metas: seq<Meta>, leftover: Option<DType>)
    requires forall d :: d in starts ==> starts[d] == 0
    ensures AtOffsets(starts, metas, 0, leftover)
  {
  }

  lemma {:induction false} StartAt(starts: map<DType, nat>, metas: seq<Meta>, n: nat, leftover: Option<DType>)
    requires n < |metas| && AtOffsets(starts, metas, n, leftover) && metas[n].dtype in starts
    ensures starts[metas[n].dtype] == Start(metas, n, leftover)
  {
  }

  lemma {:induction false} StartsAdvance(metas: seq<Meta>, n: nat, leftover: Option<DType>, starts: map<DType, nat>, d: DType, step: nat)
    requires n < |metas| && AtOffsets(starts, metas, n, leftover) && metas[n].dtype == d && d in starts
    requires step == Step(metas[n], leftover)
    ensures AtOffsets(starts[d := starts[d] + step], metas, n + 1, leftover)
  {
    hide Step;
  }

  /** Padding is computed with the element type left over from the loop that resets the starts. */
  function LastOf(order: seq<DType>): Option<DType> {
    if order == [] then None else Some(order[|order| - 1])
  }

  /** What the parameters' data was when the re-binding started, and what can be read through each view. */
  ghost predicate Outside<V>(params: seq<Parameter<V>>, buffers: map<DType, Buffer<V>>)
    reads params
  {
    && (forall i, j :: 0 <= i < j < |params| ==> params[i] != params[j])
    && forall i :: 0 <= i < |params| ==> params[i].data.InRange() && Elsewhere(params[i].data, buffers)
  }

  lemma {:induction false} PlacedAligned<V>(views: seq<View<V>>, metas: seq<Meta>, leftover: Option<DType>, buffers: map<DType, Buffer<V>>)
    requires |metas| == |views| && forall i :: 0 <= i < |views| ==> Placed(views, metas, i, leftover, buffers)
    ensures OnBoundaries(views, metas) <==> StepsWhole(metas, leftover)
  {
    hide Fits, StepsWhole, Start;
    AlignedExactly(metas, leftover);
    forall i | 0 <= i < |views| ensures views[i].start == Start(metas, i, leftover) {
      assert Placed(views, metas, i, leftover, buffers);
    }
  }

  lemma {:induction false} Beginning<V>(params: seq<Parameter<V>>, metas: seq<Meta>, views: seq<View<V>>, starts: map<DType, nat>,
                                        leftover: Option<DType>, buffers: map<DType, Buffer<V>>)
    requires Outside(params, buffers) && metas == MetasOf(params) && views == ViewsOf(params)
    requires forall d :: d in starts ==> starts[d] == 0
    ensures Current(params, metas, views) && Progress(views, metas, 0, leftover, buffers) && AtOffsets(starts, metas, 0, leftover)
  {
  }

  lemma {:induction false} CurrentAt<V>(params: seq<Parameter<V>>, metas: seq<Meta>, views: seq<View<V>>)
    requires Current(params, metas, views)
    ensures |views| == |params| == |metas| && views == ViewsOf(params)
    ensures forall j :: 0 <= j < |params| ==> params[j].data == views[j] && metas[j].dtype == params[j].dtype
  {
  }

  lemma {:induction false} MissingDoesNotFit<V>(metas: seq<Meta>, i: nat, leftover: Option<DType>, buffers: map<DType, Buffer<V>>)
    requires i < |metas| && metas[i].dtype !in buffers
    ensures !Fits(metas, i, leftover, Sizes(buffers))
  {
  }

  lemma {:induction false} ProgressFits<V>(views: seq<View<V>>, metas: seq<Meta>, i: nat, leftover: Option<DType>, buffers: map<DType, Buffer<V>>)
    requires |metas| == |views| && Progress(views, metas, i, leftover, buffers)
    ensures forall j :: 0 <= j < i ==> Placed(views, metas, j, leftover, buffers) && Fits(metas, j, leftover, Sizes(buffers))
    ensures i == |metas| ==> AllFit(metas, leftover, Sizes(buffers))
  {
    forall j | 0 <= j < i ensures Fits(metas, j, leftover, Sizes(buffers)) {
      assert Placed(views, metas, j, leftover, buffers);
    }
  }

  /** One round of the loop, with the bookkeeping of the running starts. */
  method Round<V>(params: seq<Parameter<V>>, ghost metas: seq<Meta>, ghost views: seq<View<V>>, i: nat, order: seq<DType>,
                  buffers: map<DType, Buffer<V>>, starts: map<DType, nat>, maintain: bool)
    returns (failed: Option<Failure>, ghost after: seq<View<V>>, next: map<DType, nat>)
    requires Separate(buffers) && Current(params, metas, views) && i < |params| == |metas| == |views|
    requires Progress(views, metas, i, LastOf(order), buffers)
    requires (forall d :: d in buffers <==> d in order) && starts.Keys == buffers.Keys
    requires AtOffsets(starts, metas, i, LastOf(order))
    modifies params[i], set d | d in buffers :: buffers[d].data
    ensures failed.None? <==> Fits(metas, i, LastOf(order), Sizes(buffers))
    ensures |after| == |views| && next.Keys == buffers.Keys && Current(params, metas, after)
    ensures failed.None? ==> Progress(after, metas, i + 1, LastOf(order), buffers) && AtOffsets(next, metas, i + 1, LastOf(order))
    ensures failed.None? && maintain ==> after[i].InRange() && after[i].Read() == old(views[i].Read())
    ensures failed.Some? ==> after == views && views[i].InRange() && views[i].Read() == old(views[i].Read())
    ensures !maintain ==> forall d :: d in buffers ==> buffers[d].data[..] == old(buffers[d].data[..])
    ensures forall j :: 0 <= j < |params| && j != i ==>
      after[j] == views[j] && views[j].InRange() && views[j].Read() == old(views[j].Read())
  {
    hide Padded, Fits, ViewOf, Offset, Start, AtOffsets, Progress, Current, Sizes;
    ghost var leftover := LastOf(order);
    var dtype, count := params[i].dtype, params[i].data.count;
    CurrentAt(params, metas, views);
    MetaAt(views, metas, i, leftover, buffers);
    assert metas[i] == Meta(dtype, count);
    after, next := views, starts;
    if dtype !in buffers {
      MissingDoesNotFit(metas, i, leftover, buffers);
      failed := Some(KeyMissing);
      return;
    }
    StartAt(starts, metas, i, leftover);
    failed := PlaceNext(params, metas, views, i, leftover, buffers, starts[dtype], maintain);
    if failed.Some? { return; }
    ProgressStep(views, metas, i, leftover, buffers);
    after := views[i := ViewOf(metas, i, leftover, buffers)];
    assert dtype in order;
    var step := Padded(count, order[|order| - 1]);
    StartsAdvance(metas, i, leftover, starts, dtype, step);
    next := starts[dtype := starts[dtype] + step];
  }

  lemma {:induction false} MetaAt<V>(views: seq<View<V>>, metas: seq<Meta>, i: nat, leftover: Option<DType>, buffers: map<DType, Buffer<V>>)
    requires |metas| == |views| && Progress(views, metas, i, leftover, buffers)
    ensures forall j :: 0 <= j < |views| ==> metas[j].numel == views[j].count && views[j].InRange()
  {
  }

  /** build_memory_reference_from_module. It stops at the first parameter that does not fit; those before it
      are already re-bound, with their values if these were to be maintained, and the rest is untouched. */
  method BuildReferenceFromModule<V>(params: seq<Parameter<V>>, order: seq<DType>, buffers: map<DType, Buffer<V>>, maintain: bool)
    returns (failed: Option<Failure>, bound: nat)
    requires Separate(buffers) && Outside(params, buffers)
    requires forall d :: d in buffers <==> d in order
    modifies params, set d | d in buffers :: buffers[d].data
    ensures failed.None? <==> AllFit(old(MetasOf(params)), LastOf(order), Sizes(buffers))
    ensures bound <= |params| && (failed.None? <==> bound == |params|)
    ensures forall i :: 0 <= i < bound ==> Placed(ViewsOf(params), old(MetasOf(params)), i, LastOf(order), buffers)
    ensures maintain ==> forall i :: 0 <= i < bound ==>
      params[i].data.InRange() && params[i].data.Read() == old(params[i].data.Read())
    ensures failed.None? ==> (OnBoundaries(ViewsOf(params), old(MetasOf(params))) <==> StepsWhole(old(MetasOf(params)), LastOf(order)))
    ensures bound < |params| ==> !Fits(old(MetasOf(params)), bound, LastOf(order), Sizes(buffers))
    ensures forall i :: bound <= i < |params| ==>
      params[i].data == old(params[i].data) && params[i].data.Read() == old(params[i].data.Read())
    ensures !maintain ==> forall d :: d in buffers ==> buffers[d].data[..] == old(buffers[d].data[..])
  {
    hide Padded, Fits, Placed, ViewOf, Offset, Start, AtOffsets, Progress, Separate, Current, Sizes, Step;
    ghost var metas, leftover, sizes := MetasOf(params), LastOf(order), Sizes(buffers);
    ghost var views := ViewsOf(params);
    var starts: map<DType, nat> := map d | d in buffers :: 0;
    Beginning(params, metas, views, starts, leftover, buffers);
    failed, bound := None, 0;
    while bound < |params|
      invariant bound <= |params| == |metas| == |views| && failed.None? && starts.Keys == buffers.Keys
      invariant Current(params, metas, views)
      invariant Progress(views, metas, bound, leftover, buffers)
      invariant AtOffsets(starts, metas, bound, leftover)
      invariant maintain ==> forall j :: 0 <= j < bound ==> views[j].InRange() && views[j].Read() == old(params[j].data.Read())
      invariant forall j :: bound <= j < |params| ==>
        views[j] == old(params[j].data) && views[j].Read() == old(params[j].data.Read())
      invariant !maintain ==> forall d :: d in buffers ==> buffers[d].data[..] == old(buffers[d].data[..])
    {
      failed, views, starts := Round(params, metas, views, bound, order, buffers, starts, maintain);
      if failed.Some? { break; }
      bound := bound + 1;
    }
    CurrentAt(params, metas, views);
    ProgressFits(views, metas, bound, leftover, buffers);
    if bound == |params| { PlacedAligned(views, metas, leftover, buffers); }
  }

  /** MemoryBufferModuleWrapper: allocate the buffers for a module and move its parameters there. With one
      element type this always succeeds and every parameter reads its original values, from 128-bit aligned
      starts. With several it succeeds exactly when everything fits, as NarrowLeftoverRunsOut shows it may not. */
  method WrapModule<V>(params: seq<Parameter<V>>, zero: V)
    returns (failed: Option<Failure>, order: seq<DType>, buffers: map<DType, Buffer<V>>)
    requires forall i, j :: 0 <= i < j < |params| ==> params[i] != params[j]
    requires forall i :: 0 <= i < |params| ==> params[i].data.InRange()
    modifies params
    ensures order == FirstSeen(old(MetasOf(params)), |params|) && Separate(buffers)
    ensures failed.None? <==> AllFit(old(MetasOf(params)), LastOf(order), SizesFor(old(MetasOf(params))))
    ensures failed.None? ==> forall i :: 0 <= i < |params| ==>
      params[i].data.InRange() && params[i].data.Read() == old(params[i].data.Read())
    ensures failed.None? ==> forall i :: 0 <= i < |params| ==>
      Placed(ViewsOf(params), old(MetasOf(params)), i, LastOf(order), buffers)
    ensures failed.None? ==> (OnBoundaries(ViewsOf(params), old(MetasOf(params))) <==> StepsWhole(old(MetasOf(params)), LastOf(order)))
    ensures OneType(old(MetasOf(params))) ==> failed.None? && OnBoundaries(ViewsOf(params), old(MetasOf(params)))
  {
    hide Padded, Fits, Placed, Offset, OneType, AllFit, FirstSeen, Separate, OnBoundaries, StepsWhole;
    var metas := MetasOf(params);
    order, buffers := BuildMemoryBuffer(metas, zero);
    assert forall d :: d in buffers <==> d in order by {
      assert buffers.Keys == Sizes(buffers).Keys == SizesFor(metas).Keys;
    }
    assert Outside(params, buffers);
    var bound;
    failed, bound := BuildReferenceFromModule(params, order, buffers, true);
    if OneType(metas) { OneTypeOutcome(metas, order); }
  }

  predicate OneType(metas: seq<Meta>) {
    forall i :: 0 <= i < |metas| ==> metas[i].dtype == metas[0].dtype
  }

  lemma {:induction false} OneTypeOutcome(metas: seq<Meta>, order: seq<DType>)
    requires OneType(metas) && order == FirstSeen(metas, |metas|)
    ensures AllFit(metas, LastOf(order), SizesFor(metas)) && StepsWhole(metas, LastOf(order))
  {
    if metas != [] {
      OneTypeIsSafe(metas, metas[0].dtype);
      AlignedExactly(metas, LastOf(order));
    }
  }
}
