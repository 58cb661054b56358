/**
 The data-exchange protocol: a batch of tensor rows and, beside it, named arrays of as many entries.
 A tensor row, over all keys, and an array entry are opaque.
 */
module Protocol {
  import opened Sequences
  import opened Blocks
  import Arithmetic

  datatype DataProto<T, N> = DataProto(batch: Option<seq<T>>, nonTensor: map<string, seq<N>>)

  /** One index of all tensors and all arrays. */
  datatype Row<T, N> = Row(tensor: Option<T>, nonTensor: map<string, N>)

  /** All arrays have the given length, and so has the batch if there is one. */
  predicate Uniform<T, N>(d: DataProto<T, N>, size: nat) {
    && (d.batch.Some? ==> |d.batch.value| == size)
    && forall key :: key in d.nonTensor ==> |d.nonTensor[key]| == size
  }

  /** Two protos hold the same kinds of things. */
  predicate SameFields<T, N>(a: DataProto<T, N>, b: DataProto<T, N>) {
    a.batch.Some? == b.batch.Some? && a.nonTensor.Keys == b.nonTensor.Keys
  }

  /** The proto seen row by row: this is what keeps the tensor half and the array half together. */
  function Rows<T, N>(d: DataProto<T, N>, size: nat): (r: seq<Row<T, N>>)
    requires Uniform(d, size)
    ensures |r| == size && forall i :: 0 <= i < size ==> r[i] == RowAt(d, size, i)
  {
    seq(size, i requires 0 <= i < size => RowAt(d, size, i))
  }

  function RowAt<T, N>(d: DataProto<T, N>, size: nat, i: nat): Row<T, N>
    requires Uniform(d, size) && i < size
  {
    Row(if d.batch.Some? then Some(d.batch.value[i]) else None, map key | key in d.nonTensor :: d.nonTensor[key][i])
  }

  // ----- slice

  function SliceProto<T, N>(d: DataProto<T, N>, from: int, to: int): DataProto<T, N> {
    DataProto(
      if d.batch.Some? then Some(Slice(d.batch.value, from, to)) else None,
      map key | key in d.nonTensor :: Slice(d.nonTensor[key], from, to))
  }

  function SliceSize(size: nat, from: int, to: int): nat {
    var a, b := Bound(size, from), Bound(size, to);
    if a <= b then b - a else 0
  }

  lemma {:induction false} SliceShape<T, N>(d: DataProto<T, N>, size: nat, from: int, to: int)
    requires Uniform(d, size)
    ensures Uniform(SliceProto(d, from, to), SliceSize(size, from, to)) && SameFields(SliceProto(d, from, to), d)
  {
  }

  lemma {:induction false} SliceRow<T, N>(d: DataProto<T, N>, size: nat, from: int, to: int, i: nat)
    requires Uniform(d, size) && i < SliceSize(size, from, to)
    requires Uniform(SliceProto(d, from, to), SliceSize(size, from, to))
    ensures Bound(size, from) + i < size
    ensures RowAt(SliceProto(d, from, to), SliceSize(size, from, to), i) == RowAt(d, size, Bound(size, from) + i)
  {
  }

  lemma {:induction false} SliceRows<T, N>(d: DataProto<T, N>, size: nat, from: int, to: int)
    requires Uniform(d, size)
    ensures Uniform(SliceProto(d, from, to), SliceSize(size, from, to)) && SameFields(SliceProto(d, from, to), d)
    ensures Rows(SliceProto(d, from, to), SliceSize(size, from, to)) == Slice(Rows(d, size), from, to)
  {
    hide RowAt, SliceProto, Uniform, SameFields, Rows;
    SliceShape(d, size, from, to);
    var s, n := SliceProto(d, from, to), SliceSize(size, from, to);
    forall i | 0 <= i < n ensures Rows(s, n)[i] == Slice(Rows(d, size), from, to)[i] {
      SliceRow(d, size, from, to, i);
    }
  }

  // ----- concat

  function Batches<T, N>(data: seq<DataProto<T, N>>): (r: seq<seq<T>>)
    requires forall i :: 0 <= i < |data| ==> data[i].batch.Some?
    ensures |r| == |data| && forall i :: 0 <= i < |data| ==> r[i] == data[i].batch.value
  {
    seq(|data|, i requires 0 <= i < |data| => data[i].batch.value)
  }

  function Arrays<T, N>(data: seq<DataProto<T, N>>, key: string): (r: seq<seq<N>>)
    requires forall i :: 0 <= i < |data| ==> key in data[i].nonTensor
    ensures |r| == |data| && forall i :: 0 <= i < |data| ==> r[i] == data[i].nonTensor[key]
  {
    seq(|data|, i requires 0 <= i < |data| => data[i].nonTensor[key])
  }

  predicate Alike<T, N>(data: seq<DataProto<T, N>>) {
    data != [] && forall i :: 0 <= i < |data| ==> SameFields(data[i], data[0])
  }

  function Concat<T, N>(data: seq<DataProto<T, N>>): DataProto<T, N>
    requires Alike(data)
  {
    DataProto(
      if data[0].batch.Some? then Some(Flatten(Batches(data))) else None,
      map key | key in data[0].nonTensor :: Flatten(Arrays(data, key)))
  }

  /** Sizes and rows of several protos. */
  ghost predicate Sized<T, N>(data: seq<DataProto<T, N>>, sizes: seq<nat>) {
    |sizes| == |data| && forall i :: 0 <= i < |data| ==> Uniform(data[i], sizes[i])
  }

  function AllRows<T, N>(data: seq<DataProto<T, N>>, sizes: seq<nat>): (r: seq<seq<Row<T, N>>>)
    requires |sizes| == |data| && forall i :: 0 <= i < |data| ==> Uniform(data[i], sizes[i])
    ensures |r| == |data| && forall i :: 0 <= i < |data| ==> r[i] == Rows(data[i], sizes[i])
  {
    seq(|data|, i requires 0 <= i < |data| => Rows(data[i], sizes[i]))
  }

  function Size(sizes: seq<nat>): nat {
    if sizes == [] then 0 else sizes[0] + Size(sizes[1..])
  }

  function Append<T, N>(a: DataProto<T, N>, b: DataProto<T, N>): DataProto<T, N>
    requires SameFields(a, b)
  {
    DataProto(
      if a.batch.Some? then Some(a.batch.value + b.batch.value) else None,
      map key | key in a.nonTensor :: a.nonTensor[key] + b.nonTensor[key])
  }

  lemma {:induction false} AppendRow<T, N>(a: DataProto<T, N>, b: DataProto<T, N>, m: nat, n: nat, i: nat)
    requires SameFields(a, b) && Uniform(a, m) && Uniform(b, n) && Uniform(Append(a, b), m + n) && i < m + n
    ensures i < m ==> RowAt(Append(a, b), m + n, i) == RowAt(a, m, i)
    ensures i >= m ==> RowAt(Append(a, b), m + n, i) == RowAt(b, n, i - m)
  {
  }

  lemma {:induction false} AppendRows<T, N>(a: DataProto<T, N>, b: DataProto<T, N>, m: nat, n: nat)
    requires SameFields(a, b) && Uniform(a, m) && Uniform(b, n)
    ensures Uniform(Append(a, b), m + n) && SameFields(Append(a, b), a)
    ensures Rows(Append(a, b), m + n) == Rows(a, m) + Rows(b, n)
  {
    hide RowAt, Rows;
    var c := Append(a, b);
    forall i | 0 <= i < m + n ensures Rows(c, m + n)[i] == (Rows(a, m) + Rows(b, n))[i] {
      AppendRow(a, b, m, n, i);
    }
  }

  lemma {:induction false} ConcatStep<T, N>(data: seq<DataProto<T, N>>)
    requires Alike(data) && |data| > 1
    ensures Alike(data[1..]) && SameFields(data[0], Concat(data[1..]))
    ensures Concat(data) == Append(data[0], Concat(data[1..]))
  {
    if data[0].batch.Some? { assert Batches(data)[1..] == Batches(data[1..]); }
    forall key | key in data[0].nonTensor ensures Arrays(data, key)[1..] == Arrays(data[1..], key) {
    }
  }

  lemma {:induction false} FlattenOne<R>(s: seq<R>)
    ensures Flatten([s]) == s
  {
    assert Flatten([s]) == s + Flatten([]);
  }

  lemma {:induction false} ConcatOne<T, N>(d: DataProto<T, N>)
    ensures Concat([d]) == d
  {
    var c := Concat([d]);
    if d.batch.Some? {
      assert Batches([d]) == [d.batch.value];
      FlattenOne(d.batch.value);
    }
    assert c.batch == d.batch;
    forall key | key in d.nonTensor ensures c.nonTensor[key] == d.nonTensor[key] {
      assert Arrays([d], key) == [d.nonTensor[key]];
      FlattenOne(d.nonTensor[key]);
    }
    assert c.nonTensor == d.nonTensor;
  }

  lemma {:induction false} PrependRows<T, N>(d: DataProto<T, N>, n: nat, rest: seq<DataProto<T, N>>, sizes: seq<nat>)
    requires Uniform(d, n) && Sized(rest, sizes)
    ensures Sized([d] + rest, [n] + sizes) && Size([n] + sizes) == n + Size(sizes)
    ensures Flatten(AllRows([d] + rest, [n] + sizes)) == Rows(d, n) + Flatten(AllRows(rest, sizes))
  {
    hide Uniform, Rows, AllRows;
    var data, counts := [d] + rest, [n] + sizes;
    assert counts[1..] == sizes;
    forall i | 0 <= i < |data| ensures Uniform(data[i], counts[i]) {
      if i > 0 { assert data[i] == rest[i - 1] && counts[i] == sizes[i - 1]; }
    }
    var rows := AllRows(data, counts);
    forall i | 0 <= i < |rest| ensures rows[1..][i] == AllRows(rest, sizes)[i] {
      assert data[i + 1] == rest[i] && counts[i + 1] == sizes[i];
    }
    assert rows[1..] == AllRows(rest, sizes);
  }

  lemma {:induction false} SameAsItself<T, N>(d: DataProto<T, N>)
    ensures SameFields(d, d)
  {
  }

  /** Concatenating protos concatenates their rows. */
  lemma {:induction false} ConcatRows<T, N>(data: seq<DataProto<T, N>>, sizes: seq<nat>)
    requires Alike(data) && Sized(data, sizes)
    ensures Uniform(Concat(data), Size(sizes)) && SameFields(Concat(data), data[0])
    ensures Rows(Concat(data), Size(sizes)) == Flatten(AllRows(data, sizes))
    decreases |data|
  {
    hide Uniform, SameFields, Rows, Concat, Append, Flatten;
    if |data| == 1 {
      ConcatOne(data[0]);
      assert data == [data[0]] && sizes == [sizes[0]];
      assert Size(sizes) == sizes[0] + Size([]);
      assert AllRows(data, sizes) == [Rows(data[0], sizes[0])];
      FlattenOne(Rows(data[0], sizes[0]));
      SameAsItself(data[0]);
    } else {
      ConcatStep(data);
      ConcatRows(data[1..], sizes[1..]);
      AppendRows(data[0], Concat(data[1..]), sizes[0], Size(sizes[1..]));
      assert data == [data[0]] + data[1..] && sizes == [sizes[0]] + sizes[1..];
      PrependRows(data[0], sizes[0], data[1..], sizes[1..]);
    }
  }

  // ----- chunk

  function ChunkAt<T, N>(d: DataProto<T, N>, size: nat, chunks: nat, i: nat): DataProto<T, N>
    requires chunks >= 1 && size % chunks == 0 && Uniform(d, size) && i < chunks
  {
    Arithmetic.ExactQuotient(size, chunks);
    assert size == chunks * (size / chunks);
    DataProto(
      if d.batch.Some? then Some(Cut(d.batch.value, chunks, size / chunks)[i]) else None,
      map key | key in d.nonTensor :: Cut(d.nonTensor[key], chunks, size / chunks)[i])
  }

  /** DataProto.chunk: only equal chunks are supported. */
  function Chunk<T, N>(d: DataProto<T, N>, size: nat, chunks: nat): (r: Result<seq<DataProto<T, N>>>)
    requires Uniform(d, size)
    ensures r.Ok? <==> chunks >= 1 && size % chunks == 0
    ensures r.Ok? ==> |r.value| == chunks && forall i :: 0 <= i < chunks ==> r.value[i] == ChunkAt(d, size, chunks, i)
  {
    if chunks == 0 then Err(DivisionByZero)
    else if size % chunks != 0 then Err(AssertionFailed)
    else Ok(seq(chunks, i requires 0 <= i < chunks => ChunkAt(d, size, chunks, i)))
  }

  lemma {:induction false} ChunkShape<T, N>(d: DataProto<T, N>, size: nat, chunks: nat, i: nat)
    requires chunks >= 1 && size % chunks == 0 && Uniform(d, size) && i < chunks
    ensures Uniform(ChunkAt(d, size, chunks, i), size / chunks) && SameFields(ChunkAt(d, size, chunks, i), d)
  {
    Arithmetic.ExactQuotient(size, chunks);
  }

  lemma {:induction false} ChunkRow<T, N>(d: DataProto<T, N>, size: nat, chunks: nat, m: nat, i: nat, j: nat)
    requires chunks >= 1 && size % chunks == 0 && m == size / chunks && Uniform(d, size) && i < chunks && j < m
    requires Uniform(ChunkAt(d, size, chunks, i), m)
    ensures i * m + j < size
    ensures RowAt(ChunkAt(d, size, chunks, i), m, j) == RowAt(d, size, i * m + j)
  {
    Arithmetic.ExactQuotient(size, chunks);
    var c, start := ChunkAt(d, size, chunks, i), i * m;
    BlockBounds(i, chunks, m);
    if d.batch.Some? { CutAt(d.batch.value, chunks, m, i); }
    forall key | key in d.nonTensor ensures c.nonTensor[key][j] == d.nonTensor[key][start + j] {
      CutAt(d.nonTensor[key], chunks, m, i);
    }
    RowsEqual(c, d, m, size, j, start + j);
  }

  lemma {:induction false} RowsEqual<T, N>(a: DataProto<T, N>, b: DataProto<T, N>, m: nat, n: nat, i: nat, j: nat)
    requires SameFields(a, b) && Uniform(a, m) && Uniform(b, n) && i < m && j < n
    requires a.batch.Some? ==> a.batch.value[i] == b.batch.value[j]
    requires forall key :: key in a.nonTensor ==> a.nonTensor[key][i] == b.nonTensor[key][j]
    ensures RowAt(a, m, i) == RowAt(b, n, j)
  {
  }

  lemma {:induction false} ChunkRows<T, N>(d: DataProto<T, N>, size: nat, chunks: nat, i: nat)
    requires chunks >= 1 && size % chunks == 0 && Uniform(d, size) && i < chunks
    ensures size == chunks * (size / chunks)
    ensures Uniform(ChunkAt(d, size, chunks, i), size / chunks) && SameFields(ChunkAt(d, size, chunks, i), d)
    ensures Rows(ChunkAt(d, size, chunks, i), size / chunks) == Cut(Rows(d, size), chunks, size / chunks)[i]
  {
    hide RowAt, ChunkAt, Cut, Rows, Uniform, SameFields;
    var m := size / chunks;
    Arithmetic.ExactQuotient(size, chunks);
    ChunkShape(d, size, chunks, i);
    var c := ChunkAt(d, size, chunks, i);
    CutAt(Rows(d, size), chunks, m, i);
    forall j | 0 <= j < m ensures Rows(c, m)[j] == Cut(Rows(d, size), chunks, m)[i][j] {
      ChunkRow(d, size, chunks, m, i, j);
    }
  }

  // ----- pad_dataproto_to_divisor and unpad_dataproto

  /** The pieces that the padding loop collects while `remaining` rows are missing. */
  function PaddingPieces<T, N>(d: DataProto<T, N>, size: nat, remaining: nat): seq<DataProto<T, N>>
    requires size >= 1
    decreases remaining
  {
    if remaining == 0 then []
    else
      var take := if remaining < size then remaining else size;
      [SliceProto(d, 0, take)] + PaddingPieces(d, size, remaining - take)
  }

  function Pad<T, N>(d: DataProto<T, N>, size: nat, divisor: nat): (DataProto<T, N>, nat)
    requires divisor >= 1 && Uniform(d, size)
  {
    if size % divisor == 0 then (d, 0)
    else
      var pad := divisor - size % divisor;
      PiecesAlike(d, size, pad);
      (Concat([d] + PaddingPieces(d, size, pad)), pad)
  }

  lemma {:induction false} PiecesAlike<T, N>(d: DataProto<T, N>, size: nat, remaining: nat)
    requires size >= 1 && Uniform(d, size)
    ensures forall i :: 0 <= i < |PaddingPieces(d, size, remaining)| ==> SameFields(PaddingPieces(d, size, remaining)[i], d)
    ensures Alike([d] + PaddingPieces(d, size, remaining))
    decreases remaining
  {
    if remaining > 0 { PiecesAlike(d, size, remaining - if remaining < size then remaining else size); }
  }

  /** pad_dataproto_to_divisor: the loop ends because a proto that needs padding has at least one row. */
  method PadToDivisor<T, N>(d: DataProto<T, N>, size: nat, divisor: nat) returns (padded: DataProto<T, N>, padSize: nat)
    requires divisor >= 1 && Uniform(d, size)
    ensures (padded, padSize) == Pad(d, size, divisor)
  {
    hide Concat, SliceProto, Uniform, Alike;
    if size % divisor == 0 { return d, 0; }
    padSize := divisor - size % divisor;
    var pieces := [];
    var remaining := padSize;
    while remaining > 0
      invariant 0 <= remaining
      invariant pieces + PaddingPieces(d, size, remaining) == PaddingPieces(d, size, padSize)
      decreases remaining
    {
      var take := if remaining < size then remaining else size;
      pieces := pieces + [SliceProto(d, 0, take)];
      remaining := remaining - take;
    }
    assert pieces == PaddingPieces(d, size, padSize);
    PiecesAlike(d, size, padSize);
    padded := Concat([d] + pieces);
  }

  function UnpadProto<T, N>(d: DataProto<T, N>, padSize: nat): DataProto<T, N> {
    if padSize == 0 then d else SliceProto(d, 0, 0 - padSize)
  }

  /** Rows repeated from the start until there are n of them. */
  function Cycled<R>(rows: seq<R>, n: nat): (r: seq<R>)
    requires rows != []
    ensures |r| == n && forall i :: 0 <= i < n ==> r[i] == rows[i % |rows|]
  {
    seq(n, i requires 0 <= i < n => rows[i % |rows|])
  }

  lemma {:induction false} CycledFirst<R>(rows: seq<R>, take: nat, rest: nat)
    requires rows != [] && (take == |rows| || (take < |rows| && rest == 0))
    ensures rows[..take] + Cycled(rows, rest) == Cycled(rows, take + rest)
  {
    forall i | 0 <= i < take + rest ensures (rows[..take] + Cycled(rows, rest))[i] == rows[i % |rows|] {
      if i < take {
        Arithmetic.QuotientRemainder(i, |rows|, 0, i);
      } else {
        Arithmetic.ModuloStep(i - take, |rows|);
      }
    }
  }

  lemma {:induction false} NothingRows<T, N>(d: DataProto<T, N>, size: nat)
    requires size >= 1 && Uniform(d, size)
    ensures Flatten<Row<T, N>>([]) == Cycled(Rows(d, size), 0)
  {
  }

  lemma {:induction false} PiecesRows<T, N>(d: DataProto<T, N>, size: nat, remaining: nat) returns (sizes: seq<nat>)
    requires size >= 1 && Uniform(d, size)
    ensures Sized(PaddingPieces(d, size, remaining), sizes) && Size(sizes) == remaining
    ensures Flatten(AllRows(PaddingPieces(d, size, remaining), sizes)) == Cycled(Rows(d, size), remaining)
    decreases remaining
  {
    hide Uniform, Rows, SliceProto, Cycled, Flatten;
    if remaining == 0 {
      sizes := [];
      NothingRows(d, size);
      assert AllRows(PaddingPieces(d, size, 0), sizes) == [];
    } else {
      var take := if remaining < size then remaining else size;
      var rest := PiecesRows(d, size, remaining - take);
      sizes := [take] + rest;
      SliceRows(d, size, 0, take);
      PrependRows(SliceProto(d, 0, take), take, PaddingPieces(d, size, remaining - take), rest);
      CycledFirst(Rows(d, size), take, remaining - take);
    }
  }

  /** The padded proto has the next multiple of the divisor as size, and its row i is row i mod n of the
      original, in the tensor half and in the array half alike. */
  lemma {:induction false} PadRows<T, N>(d: DataProto<T, N>, size: nat, divisor: nat)
    requires divisor >= 1 && size >= 1 && Uniform(d, size)
    ensures var (padded, pad) := Pad(d, size, divisor);
      && pad < divisor && (size + pad) % divisor == 0
      && Uniform(padded, size + pad) && SameFields(padded, d)
      && Rows(padded, size + pad) == Cycled(Rows(d, size), size + pad)
  {
    hide Rows, Concat, Uniform, SameFields, PaddingPieces, Alike;
    if size % divisor == 0 {
      SameAsItself(d);
      CycledFirst(Rows(d, size), size, 0);
      NothingRows(d, size);
    } else {
      var pad := divisor - size % divisor;
      NextDivisible(size, divisor);
      PiecesAlike(d, size, pad);
      PaddedRows(d, size, pad);
    }
  }

  lemma {:induction false} NextDivisible(size: nat, divisor: nat)
    requires divisor >= 1 && size % divisor != 0
    ensures (size + divisor - size % divisor) % divisor == 0
  {
    Arithmetic.Distribute(size / divisor, 1, divisor);
    Arithmetic.QuotientRemainder(size + divisor - size % divisor, divisor, size / divisor + 1, 0);
  }

  lemma {:induction false} PaddedRows<T, N>(d: DataProto<T, N>, size: nat, pad: nat)
    requires size >= 1 && Uniform(d, size) && Alike([d] + PaddingPieces(d, size, pad))
    ensures var padded := Concat([d] + PaddingPieces(d, size, pad));
      Uniform(padded, size + pad) && SameFields(padded, d) && Rows(padded, size + pad) == Cycled(Rows(d, size), size + pad)
  {
    hide Uniform, Rows, SliceProto, Cycled, Flatten, Concat, SameFields, PaddingPieces, Size;
    var sizes := PiecesRows(d, size, pad);
    PrependRows(d, size, PaddingPieces(d, size, pad), sizes);
    ConcatRows([d] + PaddingPieces(d, size, pad), [size] + sizes);
    CycledFirst(Rows(d, size), size, pad);
    assert Rows(d, size)[..size] == Rows(d, size);
  }

  lemma {:induction false} UnpadRows<T, N>(d: DataProto<T, N>, size: nat, pad: nat)
    requires Uniform(d, size + pad)
    ensures Uniform(UnpadProto(d, pad), size) && SameFields(UnpadProto(d, pad), d)
    ensures Rows(UnpadProto(d, pad), size) == Rows(d, size + pad)[..size]
  {
    if pad > 0 { SliceRows(d, size + pad, 0, 0 - pad); }
  }

  // ----- the round trip through the workers

  /** What the workers send back: one proto per chunk, each computed row by row. */
  ghost predicate ComputedRowWise<T, N, U, M>(f: Row<T, N> -> Row<U, M>, chunks: seq<DataProto<T, N>>, results: seq<DataProto<U, M>>, size: nat) {
    && |results| == |chunks|
    && (forall i :: 0 <= i < |chunks| ==> Uniform(chunks[i], size) && Uniform(results[i], size))
    && (forall i :: 0 <= i < |chunks| ==> Rows(results[i], size) == Map(f, Rows(chunks[i], size)))
  }

  /** Padding to the number of workers, dispatching equal chunks, collecting the results and unpadding is the
      row-wise function on the original proto. */
  lemma {:induction false} DispatchTransparent<T, N, U, M>(f: Row<T, N> -> Row<U, M>, d: DataProto<T, N>, size: nat, workers: nat,
                                                           results: seq<DataProto<U, M>>)
    requires workers >= 1 && Uniform(d, size)
    requires var (padded, pad) := Pad(d, size, workers);
      && Uniform(padded, size + pad) && Chunk(padded, size + pad, workers).Ok?
      && ComputedRowWise(f, Chunk(padded, size + pad, workers).value, results, (size + pad) / workers)
    requires Alike(results)
    ensures var pad := Pad(d, size, workers).1;
      Uniform(UnpadProto(Concat(results), pad), size)
      && Rows(UnpadProto(Concat(results), pad), size) == Map(f, Rows(d, size))
  {
    var (padded, pad) := Pad(d, size, workers);
    var m := (size + pad) / workers;
    if size >= 1 { PadRows(d, size, workers); }
    CollectRows(f, padded, size + pad, workers, results);
    UnpadRows(Concat(results), size, pad);
    forall i | 0 <= i < size ensures Cycled(Rows(d, size), size + pad)[i] == Rows(d, size)[i] {
      Arithmetic.QuotientRemainder(i, size, 0, i);
    }
  }

  /** The protocol's inputs are always met: padding makes the chunks equal. */
  lemma {:induction false} PaddedChunksExist<T, N>(d: DataProto<T, N>, size: nat, workers: nat)
    requires workers >= 1 && Uniform(d, size)
    ensures var (padded, pad) := Pad(d, size, workers);
      Uniform(padded, size + pad) && Chunk(padded, size + pad, workers).Ok?
  {
    if size >= 1 { PadRows(d, size, workers); }
  }

  lemma {:induction false} CollectRows<T, N, U, M>(f: Row<T, N> -> Row<U, M>, d: DataProto<T, N>, size: nat, workers: nat,
                                                   results: seq<DataProto<U, M>>)
    requires workers >= 1 && Uniform(d, size) && size % workers == 0 && Alike(results)
    requires ComputedRowWise(f, Chunk(d, size, workers).value, results, size / workers)
    ensures Uniform(Concat(results), size) && Rows(Concat(results), size) == Map(f, Rows(d, size))
  {
    var m := size / workers;
    var sizes := seq(workers, _ => m);
    ConcatRows(results, sizes);
    Arithmetic.ExactQuotient(size, workers);
    assert size == workers * m;
    SizeConstant(workers, m);
    forall i | 0 <= i < workers ensures AllRows(results, sizes)[i] == Map(f, Cut(Rows(d, size), workers, m)[i]) {
      ChunkRows(d, size, workers, i);
    }
    CutMap(f, Rows(d, size), workers, m);
    assert AllRows(results, sizes) == Cut(Map(f, Rows(d, size)), workers, m);
    FlattenCut(Map(f, Rows(d, size)), workers, m);
  }

  lemma {:induction false} SizeConstant(n: nat, m: nat)
    ensures Size(seq(n, _ => m)) == n * m
  {
    if n > 0 {
      SizeConstant(n - 1, m);
      assert seq(n, _ => m)[1..] == seq(n - 1, _ => m);
      Arithmetic.Distribute(n - 1, 1, m);
    }
  }

  // ----- DataProtoFuture

  /** A future collects what the workers will return, and may then pick one chunk of it. */
  datatype Future<!D> = Future(collect: seq<D> -> Result<D>, futures: seq<D>, dispatch: Option<D -> Result<D>>)

  function Dispatch<D>(pick: (D, nat, nat) -> Result<D>, i: nat, chunks: nat): D -> Result<D> {
    (d: D) => pick(d, i, chunks)
  }

  function ChunkFuture<D>(f: Future<D>, pick: (D, nat, nat) -> Result<D>, chunks: nat): (r: seq<Future<D>>)
    ensures |r| == chunks
  {
    seq(chunks, (i: nat) => Future(f.collect, f.futures, Some(Dispatch(pick, i, chunks))))
  }

  function GetFuture<D>(f: Future<D>): Result<D> {
    match f.collect(f.futures)
    case Err(e) => Err(e)
    case Ok(d) => if f.dispatch.Some? then f.dispatch.value(d) else Ok(d)
  }

  /** len(): of the batch, or else of any array. */
  ghost function Len<T, N>(d: DataProto<T, N>): nat {
    if d.batch.Some? then |d.batch.value|
    else if d.nonTensor.Keys == {} then 0
    else
      var key :| key in d.nonTensor.Keys;
      |d.nonTensor[key]|
  }

  /** check_consistency: everything has as many entries as the proto. */
  ghost predicate Consistent<T, N>(d: DataProto<T, N>) {
    Uniform(d, Len(d))
  }

  predicate HasContent<T, N>(d: DataProto<T, N>) {
    d.batch.Some? || d.nonTensor.Keys != {}
  }

  lemma {:induction false} LenIs<T, N>(d: DataProto<T, N>, size: nat)
    requires Uniform(d, size)
    ensures HasContent(d) ==> Len(d) == size
    ensures !HasContent(d) ==> Len(d) == 0
    ensures Consistent(d)
  {
  }

  /** x.chunk(chunks)[i] */
  ghost function PickOf<T, N>(d: DataProto<T, N>, i: nat, chunks: nat): Result<DataProto<T, N>> {
    if !Consistent(d) then Err(AssertionFailed)
    else
      match Chunk(d, Len(d), chunks)
      case Err(e) => Err(e)
      case Ok(parts) => if i < chunks then Ok(parts[i]) else Err(IndexOutOfRange)
  }

  /** .chunk(chunks)[i] of what a future gives. */
  ghost function PickFrom<T, N>(r: Result<DataProto<T, N>>, i: nat, chunks: nat): Result<DataProto<T, N>> {
    match r
    case Err(e) => Err(e)
    case Ok(d) => PickOf(d, i, chunks)
  }

  ghost function PickChunk<T, N>(): (DataProto<T, N>, nat, nat) -> Result<DataProto<T, N>> {
    (d: DataProto<T, N>, i: nat, chunks: nat) => PickOf(d, i, chunks)
  }

  function ChunkSizes(chunks: nat, m: nat): (r: seq<nat>)
    ensures |r| == chunks && forall i :: 0 <= i < chunks ==> r[i] == m
  {
    seq(chunks, _ => m)
  }

  /** How a future of the protocol can dispatch: not at all, or as chunk i of m. Chunking keeps nothing else. */
  datatype Selection = Everything | OneOf(i: nat, m: nat)

  ghost predicate Selects<T, N>(f: Future<DataProto<T, N>>, selection: Selection) {
    match selection
    case Everything => f.dispatch.None?
    case OneOf(i, m) => i < m && f.dispatch == Some(Dispatch(PickChunk(), i, m))
  }

  /** Chunk futures dispatch that way again, so these are all futures there are. */
  lemma {:induction false} ChunksSelect<T, N>(f: Future<DataProto<T, N>>, chunks: nat, j: nat)
    requires j < chunks
    ensures Selects(ChunkFuture(f, PickChunk(), chunks)[j], OneOf(j, chunks))
  {
  }

  /** Chunking a future and getting chunk j later is getting the future and chunking it now, for every future,
      exactly when the future selects everything, or is the only chunk, or nothing was collected, or what was
      collected cannot be cut into that many chunks, where both fail. */
  lemma {:induction false} LazyEqualsEager<T, N>(f: Future<DataProto<T, N>>, selection: Selection, d: DataProto<T, N>, n: nat, j: nat)
    requires Selects(f, selection) && f.collect(f.futures) == Ok(d) && Consistent(d) && j < n
    ensures GetFuture(ChunkFuture(f, PickChunk(), n)[j]) == PickFrom(GetFuture(f), j, n)
      <==> selection.Everything? || selection.m == 1 || Len(d) == 0 || Len(d) % n != 0
  {
    hide PickOf, Consistent;
    assert GetFuture(ChunkFuture(f, PickChunk(), n)[j]) == PickOf(d, j, n);
    if selection.OneOf? { ChunkOfChunk(d, selection.i, selection.m, n, j); }
  }

  lemma {:induction false} ChunkOfChunk<T, N>(d: DataProto<T, N>, i: nat, m: nat, n: nat, j: nat)
    requires Consistent(d) && i < m && j < n
    ensures PickOf(d, j, n) == PickFrom(PickOf(d, i, m), j, n) <==> m == 1 || Len(d) == 0 || Len(d) % n != 0
  {
    hide Uniform, ChunkAt, Len;
    var size := Len(d);
    Arithmetic.MultipleModulo(0, m);
    if size % m == 0 {
      ChunkShape(d, size, m, i);
      var c := ChunkAt(d, size, m, i);
      LenIs(c, size / m);
      LenIs(d, size);
      ContentKept(c, d);
      if m == 1 {
        ChunkWhole(d, size);
      } else if size == 0 {
        ChunkEmpty(d, n, j);
        ChunkEmpty(d, m, i);
        ChunkEmpty(c, n, j);
      } else if size % n == 0 {
        LongerLazily(d, c, m, n, j);
      } else {
        FactorOfQuotient(size, m, n);
      }
    }
  }

  lemma {:induction false} ContentKept<T, N>(c: DataProto<T, N>, d: DataProto<T, N>)
    requires SameFields(c, d)
    ensures HasContent(c) == HasContent(d)
  {
  }

  lemma {:induction false} CutOne<R>(s: seq<R>, size: nat)
    requires |s| == 1 * size
    ensures Cut(s, 1, size)[0] == s
  {
    CutFirst(s, 1, size);
  }

  lemma {:induction false} ChunkWhole<T, N>(d: DataProto<T, N>, size: nat)
    requires Uniform(d, size)
    ensures ChunkAt(d, size, 1, 0) == d
  {
    var c := ChunkAt(d, size, 1, 0);
    if d.batch.Some? { CutOne(d.batch.value, size); }
    assert c.batch == d.batch;
    forall key | key in d.nonTensor ensures c.nonTensor[key] == d.nonTensor[key] {
      CutOne(d.nonTensor[key], size);
    }
    assert c.nonTensor == d.nonTensor;
  }

  /** A chunk of no rows is the proto itself. */
  lemma {:induction false} ChunkEmpty<T, N>(d: DataProto<T, N>, chunks: nat, i: nat)
    requires Uniform(d, 0) && i < chunks
    ensures 0 % chunks == 0 && ChunkAt(d, 0, chunks, i) == d
  {
    Arithmetic.MultipleModulo(0, chunks);
    var c := ChunkAt(d, 0, chunks, i);
    ChunkShape(d, 0, chunks, i);
    if d.batch.Some? { assert d.batch.value == [] && c.batch.value == []; }
    assert c.batch == d.batch;
    forall key | key in d.nonTensor ensures c.nonTensor[key] == d.nonTensor[key] {
      assert d.nonTensor[key] == [] && c.nonTensor[key] == [];
    }
    assert c.nonTensor == d.nonTensor;
  }

  lemma {:induction false} FactorOfQuotient(size: nat, m: nat, n: nat)
    requires m >= 1 && n >= 1 && size % m == 0 && size % n != 0
    ensures size / m % n != 0
  {
    if size / m % n == 0 {
      var q := size / m / n;
      assert size / m == q * n && size == size / m * m;
      assert size == q * m * n;
      Arithmetic.MultipleModulo(q * m, n);
    }
  }

  /** The chunk got lazily has more rows than the chunk of the chunk. */
  lemma {:induction false} LongerLazily<T, N>(d: DataProto<T, N>, c: DataProto<T, N>, m: nat, n: nat, j: nat)
    requires Consistent(d) && Consistent(c) && HasContent(d) && HasContent(c) && j < n && m > 1
    requires Len(d) > 0 && Len(d) % m == 0 && Len(c) == Len(d) / m && Len(d) % n == 0
    ensures PickOf(d, j, n) != PickOf(c, j, n)
  {
    hide Uniform, ChunkAt, Len;
    if Len(c) % n == 0 {
      var x, y := ChunkAt(d, Len(d), n, j), ChunkAt(c, Len(c), n, j);
      ChunkShape(d, Len(d), n, j);
      ChunkShape(c, Len(c), n, j);
      LenIs(x, Len(d) / n);
      LenIs(y, Len(c) / n);
      ContentKept(x, d);
      ContentKept(y, c);
      SmallerQuotient(Len(d), m, n);
    }
  }

  lemma {:induction false} SmallerQuotient(size: nat, m: nat, n: nat)
    requires m > 1 && n >= 1 && size > 0 && size % m == 0 && size % n == 0 && size / m % n == 0
    ensures size / m / n < size / n
  {
    var a, p, q := size / m, size / n, size / m / n;
    assert size == a * m && size == p * n && a == q * n;
    Arithmetic.Positive(a, m);
    Arithmetic.MulMonotone(2, m, a);
    assert 2 * a == a + a && m * a == a * m;
    if p <= q { Arithmetic.MulMonotone(p, q, n); }
  }

  /** Four rows, half of a half: got lazily it is the first two rows, got eagerly the third row. */
  lemma {:induction false} ChunkOfChunkForgets()
    ensures var d: DataProto<int, int> := DataProto(Some([0, 1, 2, 3]), map[]);
      && PickOf(d, 0, 2) == Ok(DataProto(Some([0, 1]), map[]))
      && PickFrom(PickOf(d, 1, 2), 0, 2) == Ok(DataProto(Some([2]), map[]))
  {
    var d: DataProto<int, int> := DataProto(Some([0, 1, 2, 3]), map[]);
    var c: DataProto<int, int> := DataProto(Some([2, 3]), map[]);
    HalfOf(d, [0, 1], 0);
    HalfOf(d, [2, 3], 1);
    HalfOf(c, [2], 0);
    LenIs(d, 4);
    LenIs(c, 2);
  }

  lemma {:induction false} HalfOf(d: DataProto<int, int>, half: seq<int>, i: nat)
    requires d.nonTensor == map[] && d.batch.Some? && |d.batch.value| == 2 * |half| && i < 2
    requires half == if i == 0 then d.batch.value[..|half|] else d.batch.value[|half|..]
    ensures ChunkAt(d, 2 * |half|, 2, i) == DataProto(Some(half), map[])
  {
    CutFirst(d.batch.value, 2, |half|);
    CutOne(d.batch.value[|half|..], |half|);
    assert 2 * |half| / 2 == |half|;
  }

  /** The chunks make up the whole. */
  lemma {:induction false} ChunksCover<T, N>(d: DataProto<T, N>, size: nat, chunks: nat)
    requires Uniform(d, size) && chunks >= 1 && size % chunks == 0
    ensures var parts, sizes := Chunk(d, size, chunks).value, ChunkSizes(chunks, size / chunks);
      Sized(parts, sizes) && Flatten(AllRows(parts, sizes)) == Rows(d, size)
  {
    hide ChunkAt, Rows, RowAt, Uniform, Flatten;
    var parts, sizes, m := Chunk(d, size, chunks).value, ChunkSizes(chunks, size / chunks), size / chunks;
    Arithmetic.ExactQuotient(size, chunks);
    forall i | 0 <= i < chunks
      ensures Uniform(parts[i], sizes[i]) && Rows(parts[i], m) == Cut(Rows(d, size), chunks, m)[i]
    {
      ChunkRows(d, size, chunks, i);
    }
    assert AllRows(parts, sizes) == Cut(Rows(d, size), chunks, m);
    FlattenCut(Rows(d, size), chunks, m);
  }

  // ----- repeat

  function Times<R>(x: R, times: nat): (r: seq<R>)
    ensures |r| == times && forall i :: 0 <= i < times ==> r[i] == x
  {
    seq(times, _ => x)
  }

  /** repeat_interleave, or stacking whole copies. */
  function Repeated<R>(s: seq<R>, times: nat, interleave: bool): seq<R> {
    if interleave then Flatten(Map(x => Times(x, times), s)) else Flatten(Times(s, times))
  }

  function RepeatProto<T, N>(d: DataProto<T, N>, times: nat, interleave: bool): DataProto<T, N> {
    DataProto(
      if d.batch.Some? then Some(Repeated(d.batch.value, times, interleave)) else None,
      map key | key in d.nonTensor :: Repeated(d.nonTensor[key], times, interleave))
  }

  /** Which original index stands at index i. */
  function Origin(size: nat, times: nat, interleave: bool, i: nat): (o: nat)
    requires i < size * times
    ensures o < size
  {
    OriginInRange(size, times, i);
    if interleave then i / times else i % size
  }

  lemma {:induction false} OriginInRange(size: nat, times: nat, i: nat)
    requires i < size * times
    ensures size >= 1 && times >= 1 && i / times < size && i / size < times
  {
    Arithmetic.Positive(size, times);
    if i / times >= size { Arithmetic.MulMonotone(size, i / times, times); }
    if i / size >= times { Arithmetic.MulMonotone(times, i / size, size); }
  }

  lemma {:induction false} InterleavedAt<R>(s: seq<R>, times: nat, q: nat, r: nat)
    requires q < |s| && r < times
    ensures |Repeated(s, times, true)| == |s| * times
    ensures q * times + r < |s| * times && Repeated(s, times, true)[q * times + r] == s[q]
  {
    var parts := Map(x => Times(x, times), s);
    FlattenLength(parts, times);
    FlattenAt(parts, times, q, r);
  }

  lemma {:induction false} StackedAt<R>(s: seq<R>, times: nat, q: nat, r: nat)
    requires q < times && r < |s|
    ensures |Repeated(s, times, false)| == times * |s|
    ensures q * |s| + r < times * |s| && Repeated(s, times, false)[q * |s| + r] == s[r]
  {
    FlattenLength(Times(s, times), |s|);
    FlattenAt(Times(s, times), |s|, q, r);
  }

  lemma {:induction false} RepeatedAt<R>(s: seq<R>, times: nat, interleave: bool, i: nat)
    requires i < |s| * times
    ensures |Repeated(s, times, interleave)| == |s| * times
    ensures Repeated(s, times, interleave)[i] == s[Origin(|s|, times, interleave, i)]
  {
    hide Repeated;
    OriginInRange(|s|, times, i);
    if interleave {
      Arithmetic.DivMod(i, times);
      InterleavedAt(s, times, i / times, i % times);
    } else {
      Arithmetic.DivMod(i, |s|);
      StackedAt(s, times, i / |s|, i % |s|);
    }
  }

  lemma {:induction false} RepeatedLength<R>(s: seq<R>, times: nat, interleave: bool)
    ensures |Repeated(s, times, interleave)| == |s| * times
  {
    if interleave {
      FlattenLength(Map(x => Times(x, times), s), times);
    } else {
      FlattenLength(Times(s, times), |s|);
    }
  }

  lemma {:induction false} RepeatShape<T, N>(d: DataProto<T, N>, size: nat, times: nat, interleave: bool)
    requires Uniform(d, size)
    ensures Uniform(RepeatProto(d, times, interleave), size * times) && SameFields(RepeatProto(d, times, interleave), d)
  {
    hide Repeated;
    if d.batch.Some? { RepeatedLength(d.batch.value, times, interleave); }
    forall key | key in d.nonTensor ensures |Repeated(d.nonTensor[key], times, interleave)| == size * times {
      RepeatedLength(d.nonTensor[key], times, interleave);
    }
  }

  /** Repeating gives size * times rows and keeps the two halves aligned: every row of the result is one and
      the same original row in both. */
  lemma {:induction false} RepeatRows<T, N>(d: DataProto<T, N>, size: nat, times: nat, interleave: bool)
    requires Uniform(d, size)
    ensures Uniform(RepeatProto(d, times, interleave), size * times) && SameFields(RepeatProto(d, times, interleave), d)
    ensures forall i :: 0 <= i < size * times ==>
      && times >= 1 && size >= 1
      && var o := if interleave then i / times else i % size;
      && 0 <= o < size && Rows(RepeatProto(d, times, interleave), size * times)[i] == Rows(d, size)[o]
  {
    hide RowAt, RepeatProto, Uniform, SameFields;
    RepeatShape(d, size, times, interleave);
    forall i | 0 <= i < size * times
      ensures times >= 1 && size >= 1
      ensures var o := if interleave then i / times else i % size;
        0 <= o < size && Rows(RepeatProto(d, times, interleave), size * times)[i] == Rows(d, size)[o]
    {
      OriginInRange(size, times, i);
      RepeatRow(d, size, times, interleave, i);
    }
  }

  lemma {:induction false} RepeatRow<T, N>(d: DataProto<T, N>, size: nat, times: nat, interleave: bool, i: nat)
    requires Uniform(d, size) && i < size * times && Uniform(RepeatProto(d, times, interleave), size * times)
    requires SameFields(RepeatProto(d, times, interleave), d)
    ensures RowAt(RepeatProto(d, times, interleave), size * times, i) == RowAt(d, size, Origin(size, times, interleave, i))
  {
    hide Repeated, Origin;
    var r, o := RepeatProto(d, times, interleave), Origin(size, times, interleave, i);
    if d.batch.Some? { RepeatedAt(d.batch.value, times, interleave, i); }
    forall key | key in d.nonTensor ensures r.nonTensor[key][i] == d.nonTensor[key][o] {
      RepeatedAt(d.nonTensor[key], times, interleave, i);
    }
    RowsEqual(r, d, size * times, size, i, o);
  }
}
