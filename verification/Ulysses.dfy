/**
 Sequence parallelism. A tensor is a matrix whose rows are sequence positions and whose columns are
 heads; everything along the other dimensions is one opaque entry. The ranks of the group are the
 positions of a list of such matrices, and a collective maps that list to the list of results.
 */
module Ulysses {
  import opened Sequences
  import opened Blocks
  import Arithmetic

  type Matrix<T> = seq<seq<T>>

  predicate Shaped<T>(x: Matrix<T>, rows: nat, columns: nat) {
    |x| == rows && AllOf(x, columns)
  }

  predicate AllShaped<T>(world: seq<Matrix<T>>, rows: nat, columns: nat) {
    forall r :: 0 <= r < |world| ==> Shaped(world[r], rows, columns)
  }

  // ----- the two dimensions

  /** torch.cat along the columns. */
  function CatColumns<T>(parts: seq<Matrix<T>>, rows: nat): (r: Matrix<T>)
    requires forall p :: 0 <= p < |parts| ==> |parts[p]| == rows
    ensures |r| == rows
    ensures forall i :: 0 <= i < rows ==> r[i] == Flatten(RowOf(parts, i))
  {
    seq(rows, i requires 0 <= i < rows && forall p :: 0 <= p < |parts| ==> |parts[p]| == rows => Flatten(RowOf(parts, i)))
  }

  /** Row i of every matrix. */
  function RowOf<T>(parts: seq<Matrix<T>>, i: nat): (r: seq<seq<T>>)
    requires forall p :: 0 <= p < |parts| ==> i < |parts[p]|
    ensures |r| == |parts| && forall p :: 0 <= p < |parts| ==> r[p] == parts[p][i]
  {
    seq(|parts|, p requires 0 <= p < |parts| => parts[p][i])
  }

  /** Columns c*width up to (c+1)*width. */
  function ColumnBlock<T>(x: Matrix<T>, n: nat, width: nat, c: nat): (r: Matrix<T>)
    requires AllOf(x, n * width) && c < n
    ensures |r| == |x| && AllOf(r, width)
    ensures forall i :: 0 <= i < |x| ==> r[i] == Cut(x[i], n, width)[c]
  {
    seq(|x|, i requires 0 <= i < |x| => Cut(x[i], n, width)[c])
  }

  function ColumnBlocks<T>(x: Matrix<T>, n: nat, width: nat): (r: seq<Matrix<T>>)
    requires AllOf(x, n * width)
    ensures |r| == n && forall c :: 0 <= c < n ==> r[c] == ColumnBlock(x, n, width, c)
  {
    seq(n, c requires 0 <= c < n => ColumnBlock(x, n, width, c))
  }

  /** Gluing the column blocks of a matrix gives it back. */
  lemma {:induction false} CatColumnBlocks<T>(x: Matrix<T>, n: nat, width: nat)
    requires AllOf(x, n * width)
    ensures CatColumns(ColumnBlocks(x, n, width), |x|) == x
  {
    forall i | 0 <= i < |x| ensures CatColumns(ColumnBlocks(x, n, width), |x|)[i] == x[i] {
      assert RowOf(ColumnBlocks(x, n, width), i) == Cut(x[i], n, width);
      FlattenCut(x[i], n, width);
    }
  }

  lemma {:induction false} ColumnBlockRows<T>(x: Matrix<T>, n: nat, width: nat, c: nat, from: nat, to: nat)
    requires AllOf(x, n * width) && c < n && from <= to <= |x|
    ensures ColumnBlock(x, n, width, c)[from..to] == ColumnBlock(x[from..to], n, width, c)
  {
  }

  lemma {:induction false} ColumnBlockAppend<T>(x: Matrix<T>, y: Matrix<T>, n: nat, width: nat, c: nat)
    requires AllOf(x, n * width) && AllOf(y, n * width) && c < n
    ensures AllOf(x + y, n * width)
    ensures ColumnBlock(x + y, n, width, c) == ColumnBlock(x, n, width, c) + ColumnBlock(y, n, width, c)
  {
  }

  // ----- all_to_all_tensor

  /** Every rank sends column block c to rank c, which stacks what it gets along the rows. */
  function HeadsToRows<T>(world: seq<Matrix<T>>, rows: nat, width: nat): (r: seq<Matrix<T>>)
    requires AllShaped(world, rows, |world| * width)
    ensures |r| == |world|
  {
    seq(|world|, c requires 0 <= c < |world| => Flatten(Sent(world, rows, width, c)))
  }

  /** What the ranks send to rank c. */
  function Sent<T>(world: seq<Matrix<T>>, rows: nat, width: nat, c: nat): (r: seq<Matrix<T>>)
    requires AllShaped(world, rows, |world| * width) && c < |world|
    ensures |r| == |world|
    ensures forall s :: 0 <= s < |world| ==> r[s] == ColumnBlock(world[s], |world|, width, c)
  {
    seq(|world|, s requires 0 <= s < |world| => ColumnBlock(world[s], |world|, width, c))
  }

  /** Every rank sends row block r to rank r, which joins what it gets along the columns. */
  function RowsToHeads<T>(world: seq<Matrix<T>>, rows: nat): (r: seq<Matrix<T>>)
    requires forall c :: 0 <= c < |world| ==> |world[c]| == |world| * rows
    ensures |r| == |world|
  {
    seq(|world|, r requires 0 <= r < |world| => CatColumns(RowBlocks(world, rows, r), rows))
  }

  function RowBlocks<T>(world: seq<Matrix<T>>, rows: nat, r: nat): (b: seq<Matrix<T>>)
    requires r < |world| && forall c :: 0 <= c < |world| ==> |world[c]| == |world| * rows
    ensures |b| == |world| && forall c :: 0 <= c < |world| ==> b[c] == Cut(world[c], |world|, rows)[r]
  {
    seq(|world|, c requires 0 <= c < |world| => Cut(world[c], |world|, rows)[r])
  }

  /** The collective: every rank's preallocated output buffers are filled, the one for source s with what s
      put into its input list for that rank. */
  method AllToAll<T>(inputs: seq<seq<Matrix<T>>>) returns (outputs: seq<seq<Matrix<T>>>)
    requires forall s :: 0 <= s < |inputs| ==> |inputs[s]| == |inputs|
    ensures |outputs| == |inputs|
    ensures forall c :: 0 <= c < |outputs| ==> outputs[c] == Received(inputs, c)
  {
    outputs := [];
    for c := 0 to |inputs|
      invariant |outputs| == c
      invariant forall r :: 0 <= r < c ==> outputs[r] == Received(inputs, r)
    {
      var buffers := new Matrix<T>[|inputs|](_ => []);
      for s := 0 to |inputs|
        invariant forall u :: 0 <= u < s ==> buffers[u] == inputs[u][c]
      {
        buffers[s] := inputs[s][c];
      }
      outputs := outputs + [buffers[..]];
    }
  }

  /** What rank c is sent, in the order of the senders. */
  function Received<T>(inputs: seq<seq<Matrix<T>>>, c: nat): (r: seq<Matrix<T>>)
    requires forall s :: 0 <= s < |inputs| ==> c < |inputs[s]|
    ensures |r| == |inputs| && forall s :: 0 <= s < |inputs| ==> r[s] == inputs[s][c]
  {
    seq(|inputs|, s requires 0 <= s < |inputs| => inputs[s][c])
  }

  /** all_to_all_tensor, scattering the columns and gathering the rows: split, exchange, concatenate. */
  method ScatterColumns<T>(world: seq<Matrix<T>>, rows: nat, width: nat) returns (result: seq<Matrix<T>>)
    requires AllShaped(world, rows, |world| * width)
    ensures result == HeadsToRows(world, rows, width)
  {
    var inputs := [];
    for s := 0 to |world|
      invariant |inputs| == s
      invariant forall u :: 0 <= u < s ==> inputs[u] == ColumnBlocks(world[u], |world|, width)
    {
      inputs := inputs + [ColumnBlocks(world[s], |world|, width)];
    }
    var outputs := AllToAll(inputs);
    result := [];
    for c := 0 to |world|
      invariant |result| == c
      invariant forall r :: 0 <= r < c ==> result[r] == HeadsToRows(world, rows, width)[r]
    {
      assert outputs[c] == Sent(world, rows, width, c);
      result := result + [Flatten(outputs[c])];
    }
  }

  /** all_to_all_tensor, scattering the rows and gathering the columns. */
  method ScatterRows<T>(world: seq<Matrix<T>>, rows: nat) returns (result: seq<Matrix<T>>)
    requires forall c :: 0 <= c < |world| ==> |world[c]| == |world| * rows
    ensures result == RowsToHeads(world, rows)
  {
    var inputs := [];
    for s := 0 to |world|
      invariant |inputs| == s
      invariant forall u :: 0 <= u < s ==> inputs[u] == Cut(world[u], |world|, rows)
    {
      inputs := inputs + [Cut(world[s], |world|, rows)];
    }
    var outputs := AllToAll(inputs);
    result := [];
    for c := 0 to |world|
      invariant |result| == c
      invariant forall r :: 0 <= r < c ==> result[r] == RowsToHeads(world, rows)[r]
    {
      assert outputs[c] == RowBlocks(world, rows, c);
      result := result + [CatColumns(outputs[c], rows)];
    }
  }

  /** Seen globally, gathering the sequence and scattering the heads cuts the columns of the whole. */
  lemma {:induction false} HeadsToRowsGlobal<T>(world: seq<Matrix<T>>, rows: nat, width: nat, c: nat)
    requires AllShaped(world, rows, |world| * width) && c < |world|
    ensures AllOf(Flatten(world), |world| * width) && |Flatten(world)| == |world| * rows
    ensures HeadsToRows(world, rows, width)[c] == ColumnBlock(Flatten(world), |world|, width, c)
  {
    FlattenLength(world, rows);
    FlattenColumns(world, |world|, width, c);
    assert Sent(world, rows, width, c) == BlocksEach(world, |world|, width, c);
  }

  function BlocksEach<T>(parts: seq<Matrix<T>>, n: nat, width: nat, c: nat): (r: seq<Matrix<T>>)
    requires c < n && forall s :: 0 <= s < |parts| ==> AllOf(parts[s], n * width)
    ensures |r| == |parts| && forall s :: 0 <= s < |parts| ==> r[s] == ColumnBlock(parts[s], n, width, c)
  {
    seq(|parts|, s requires 0 <= s < |parts| && AllOf(parts[s], n * width) => ColumnBlock(parts[s], n, width, c))
  }

  lemma {:induction false} FlattenColumns<T>(parts: seq<Matrix<T>>, n: nat, width: nat, c: nat)
    requires c < n && forall s :: 0 <= s < |parts| ==> AllOf(parts[s], n * width)
    ensures AllOf(Flatten(parts), n * width)
    ensures Flatten(BlocksEach(parts, n, width, c)) == ColumnBlock(Flatten(parts), n, width, c)
  {
    if parts != [] {
      FlattenColumns(parts[1..], n, width, c);
      assert BlocksEach(parts, n, width, c)[1..] == BlocksEach(parts[1..], n, width, c);
      ColumnBlockAppend(parts[0], Flatten(parts[1..]), n, width, c);
    }
  }

  /** And joining the column blocks of a whole gives every rank its rows of the whole. */
  lemma {:induction false} RowsToHeadsGlobal<T>(whole: Matrix<T>, n: nat, rows: nat, width: nat, r: nat)
    requires Shaped(whole, n * rows, n * width) && r < n
    ensures RowsToHeads(ColumnBlocks(whole, n, width), rows)[r] == Cut(whole, n, rows)[r]
  {
    hide Cut, ColumnBlock, CatColumns;
    var mine := Cut(whole, n, rows)[r];
    BlockOfColumns(whole, n, rows, width, r, 0);
    var blocks := RowBlocks(ColumnBlocks(whole, n, width), rows, r);
    forall c | 0 <= c < n ensures blocks[c] == ColumnBlock(mine, n, width, c) {
      BlockOfColumns(whole, n, rows, width, r, c);
    }
    assert blocks == ColumnBlocks(mine, n, width);
    CatColumnBlocks(mine, n, width);
  }

  /** Row block r of a column block is the column block of row block r. */
  lemma {:induction false} BlockOfColumns<T>(whole: Matrix<T>, n: nat, rows: nat, width: nat, r: nat, c: nat)
    requires Shaped(whole, n * rows, n * width) && r < n && c < n
    ensures AllOf(Cut(whole, n, rows)[r], n * width)
    ensures Cut(ColumnBlock(whole, n, width, c), n, rows)[r] == ColumnBlock(Cut(whole, n, rows)[r], n, width, c)
  {
    hide Cut, ColumnBlock;
    CutAt(whole, n, rows, r);
    CutAt(ColumnBlock(whole, n, width, c), n, rows, r);
    ColumnBlockRows(whole, n, width, c, r * rows, r * rows + rows);
  }

  // ----- gather_seq_scatter_heads and gather_heads_scatter_seq

  /** _unpad_tensor: x[0:-padding] along the rows. */
  function Unpad<T>(x: seq<T>, padding: int): seq<T> {
    Slice(x, 0, 0 - padding)
  }

  function UnpadAll<T>(world: seq<Matrix<T>>, padding: int): (r: seq<Matrix<T>>)
    ensures |r| == |world| && forall c :: 0 <= c < |world| ==> r[c] == Unpad(world[c], padding)
  {
    seq(|world|, c requires 0 <= c < |world| => Unpad(world[c], padding))
  }

  function GatherSeqScatterHeads<T>(world: seq<Matrix<T>>, rows: nat, width: nat, unpadded: nat): (r: seq<Matrix<T>>)
    requires AllShaped(world, rows, |world| * width)
    ensures |r| == |world|
  {
    var x := HeadsToRows(world, rows, width);
    if unpadded != 0 && |world| != 0 && unpadded % |world| != 0 then UnpadAll(x, |world| * rows - unpadded) else x
  }

  function ZeroRows<T>(zero: T, n: nat, columns: nat): (r: Matrix<T>)
    ensures Shaped(r, n, columns) && forall i, j :: 0 <= i < n && 0 <= j < columns ==> r[i][j] == zero
  {
    seq(n, i => seq(columns, j => zero))
  }

  /** How many zero rows bring a size up to a multiple of n. */
  function Padding(size: nat, n: nat): (p: nat)
    requires n >= 1
    ensures p < n
  {
    (n - size % n) % n
  }

  lemma {:induction false} PaddingFills(size: nat, n: nat)
    requires n >= 1
    ensures (size + Padding(size, n)) % n == 0
    ensures Padding(size, n) == if size % n == 0 then 0 else n - size % n
  {
    var q, r := size / n, size % n;
    if r == 0 {
      Arithmetic.QuotientRemainder(n, n, 1, 0);
    } else {
      Arithmetic.QuotientRemainder(n - r, n, 0, n - r);
      Arithmetic.Distribute(q, 1, n);
      Arithmetic.QuotientRemainder(size + (n - r), n, q + 1, 0);
    }
  }

  function PadRowsAll<T>(world: seq<Matrix<T>>, zero: T, padding: nat, width: nat): (r: seq<Matrix<T>>)
    ensures |r| == |world| && forall c :: 0 <= c < |world| ==> r[c] == world[c] + ZeroRows(zero, padding, width)
  {
    seq(|world|, c requires 0 <= c < |world| => world[c] + ZeroRows(zero, padding, width))
  }

  function GatherHeadsScatterSeq<T>(world: seq<Matrix<T>>, zero: T, size: nat, width: nat): (r: seq<Matrix<T>>)
    requires world != [] && AllShaped(world, size, width)
    ensures |r| == |world|
  {
    var padding := Padding(size, |world|);
    PaddingFills(size, |world|);
    Arithmetic.ExactQuotient(size + padding, |world|);
    RowsToHeads(PadRowsAll(world, zero, padding, width), (size + padding) / |world|)
  }

  /** The whole tensor with everything from row `size` on replaced by zeros. */
  function Blanked<T>(whole: Matrix<T>, zero: T, size: nat, columns: nat): (r: Matrix<T>)
    requires size <= |whole|
    ensures |r| == |whole|
    ensures forall i :: 0 <= i < |whole| ==> r[i] == if i < size then whole[i] else seq(columns, j => zero)
  {
    whole[..size] + ZeroRows(zero, |whole| - size, columns)
  }

  /** Heads back to sequence undoes sequence to heads, on every rank: attention can work on all positions
      of a share of the heads and hand the result back as if nothing had moved. */
  lemma {:induction false} AllToAllRoundTrip<T>(world: seq<Matrix<T>>, zero: T, rows: nat, width: nat)
    requires world != [] && AllShaped(world, rows, |world| * width)
    ensures AllShaped(GatherSeqScatterHeads(world, rows, width, 0), |world| * rows, width)
    ensures GatherHeadsScatterSeq(GatherSeqScatterHeads(world, rows, width, 0), zero, |world| * rows, width) == world
  {
    var n := |world|;
    var whole := Flatten(world);
    HeadsToRowsGlobal(world, rows, width, 0);
    forall c | 0 <= c < n ensures HeadsToRows(world, rows, width)[c] == ColumnBlock(whole, n, width, c) {
      HeadsToRowsGlobal(world, rows, width, c);
    }
    assert HeadsToRows(world, rows, width) == ColumnBlocks(whole, n, width);
    NoPadding(ColumnBlocks(whole, n, width), zero, n, rows, width);
    CutFlatten(world, rows);
    forall r | 0 <= r < n ensures RowsToHeads(ColumnBlocks(whole, n, width), rows)[r] == world[r] {
      RowsToHeadsGlobal(whole, n, rows, width, r);
    }
  }

  lemma {:induction false} NoPadding<T>(world: seq<Matrix<T>>, zero: T, n: nat, rows: nat, width: nat)
    requires world != [] && n == |world| && AllShaped(world, n * rows, width)
    ensures GatherHeadsScatterSeq(world, zero, n * rows, width) == RowsToHeads(world, rows)
  {
    assert rows * n == n * rows;
    Arithmetic.MultipleModulo(rows, n);
    PaddingFills(n * rows, n);
    forall c | 0 <= c < n ensures PadRowsAll(world, zero, 0, width)[c] == world[c] {
      assert ZeroRows(zero, 0, width) == [];
    }
    assert PadRowsAll(world, zero, 0, width) == world;
  }

  /** With an unpadded length that fills the last rank at least in part, the round trip keeps all real
      positions and leaves zeros at the padding positions. */
  lemma {:induction false} AllToAllPaddedRoundTrip<T>(world: seq<Matrix<T>>, zero: T, rows: nat, width: nat, unpadded: nat, r: nat)
    requires world != [] && AllShaped(world, rows, |world| * width) && r < |world|
    requires 0 < unpadded && |world| * rows == unpadded + Padding(unpadded, |world|)
    ensures |Flatten(world)| == |world| * rows
    ensures AllShaped(GatherSeqScatterHeads(world, rows, width, unpadded), unpadded, width)
    ensures GatherHeadsScatterSeq(GatherSeqScatterHeads(world, rows, width, unpadded), zero, unpadded, width)[r]
         == Cut(Blanked(Flatten(world), zero, unpadded, |world| * width), |world|, rows)[r]
  {
    hide GatherSeqScatterHeads, GatherHeadsScatterSeq, Flatten, Padding;
    var n := |world|;
    GatheredHeads(world, rows, width, unpadded);
    var blanked := Blanked(Flatten(world), zero, unpadded, n * width);
    PaddedHeads(world, zero, rows, width, unpadded);
    PaddingFills(unpadded, n);
    RowsOf(unpadded + Padding(unpadded, n), n, rows);
    HeadsBack(GatherSeqScatterHeads(world, rows, width, unpadded), zero, unpadded, rows, width);
    RowsToHeadsGlobal(blanked, n, rows, width, r);
  }

  lemma {:induction false} HeadsBack<T>(heads: seq<Matrix<T>>, zero: T, unpadded: nat, rows: nat, width: nat)
    requires heads != [] && AllShaped(heads, unpadded, width)
    requires 0 < unpadded && unpadded + Padding(unpadded, |heads|) == |heads| * rows
    ensures GatherHeadsScatterSeq(heads, zero, unpadded, width)
         == RowsToHeads(PadRowsAll(heads, zero, Padding(unpadded, |heads|), width), rows)
  {
    hide RowsToHeads, PadRowsAll, Padding;
    PaddingFills(unpadded, |heads|);
    RowsOf(unpadded + Padding(unpadded, |heads|), |heads|, rows);
  }

  /** After the first exchange, with the padding cut off. */
  lemma {:induction false} GatheredHeads<T>(world: seq<Matrix<T>>, rows: nat, width: nat, unpadded: nat)
    requires world != [] && AllShaped(world, rows, |world| * width)
    requires 0 < unpadded && |world| * rows == unpadded + Padding(unpadded, |world|)
    ensures |Flatten(world)| == |world| * rows && AllOf(Flatten(world), |world| * width)
    ensures var heads := GatherSeqScatterHeads(world, rows, width, unpadded);
      && AllShaped(heads, unpadded, width) && |heads| == |world|
      && forall c :: 0 <= c < |heads| ==> heads[c] == ColumnBlock(Flatten(world), |world|, width, c)[..unpadded]
  {
    hide Flatten, Padding;
    HeadsToRowsGlobal(world, rows, width, 0);
    PaddingFills(unpadded, |world|);
    forall c | 0 <= c < |world| ensures HeadsToRows(world, rows, width)[c] == ColumnBlock(Flatten(world), |world|, width, c) {
      HeadsToRowsGlobal(world, rows, width, c);
    }
  }

  lemma {:induction false} PaddedHeads<T>(world: seq<Matrix<T>>, zero: T, rows: nat, width: nat, unpadded: nat)
    requires world != [] && AllShaped(world, rows, |world| * width)
    requires 0 < unpadded && |world| * rows == unpadded + Padding(unpadded, |world|)
    requires |Flatten(world)| == |world| * rows && AllOf(Flatten(world), |world| * width)
    ensures AllOf(Blanked(Flatten(world), zero, unpadded, |world| * width), |world| * width)
    ensures PadRowsAll(GatherSeqScatterHeads(world, rows, width, unpadded), zero, Padding(unpadded, |world|), width)
         == ColumnBlocks(Blanked(Flatten(world), zero, unpadded, |world| * width), |world|, width)
  {
    hide Flatten, Padding, GatherSeqScatterHeads;
    var n, whole := |world|, Flatten(world);
    GatheredHeads(world, rows, width, unpadded);
    forall c | 0 <= c < n
      ensures AllOf(Blanked(whole, zero, unpadded, n * width), n * width)
      ensures PadRowsAll(GatherSeqScatterHeads(world, rows, width, unpadded), zero, Padding(unpadded, n), width)[c]
           == ColumnBlock(Blanked(whole, zero, unpadded, n * width), n, width, c)
    {
      BlankedBlock(whole, zero, unpadded, n, width, c);
    }
    BlankedBlock(whole, zero, unpadded, n, width, 0);
  }

  lemma {:induction false} RowsOf(size: nat, n: nat, rows: nat)
    requires n >= 1 && size == n * rows
    ensures size / n == rows
  {
    assert n * rows == rows * n;
    Arithmetic.MultipleModulo(rows, n);
  }

  lemma {:induction false} BlankedBlock<T>(whole: Matrix<T>, zero: T, size: nat, n: nat, width: nat, c: nat)
    requires AllOf(whole, n * width) && size <= |whole| && c < n
    ensures AllOf(Blanked(whole, zero, size, n * width), n * width)
    ensures ColumnBlock(whole, n, width, c)[..size] + ZeroRows(zero, |whole| - size, width)
         == ColumnBlock(Blanked(whole, zero, size, n * width), n, width, c)
  {
    var blanked := Blanked(whole, zero, size, n * width);
    forall i | size <= i < |whole| ensures ColumnBlock(blanked, n, width, c)[i] == seq(width, j => zero) {
      CutAt(blanked[i], n, width, c);
    }
  }

  // ----- slicing inputs and gathering outputs

  /** The share of one rank: parts = size // sp_size positions. */
  function Share<T>(s: seq<T>, n: nat, rank: nat): seq<T>
    requires n >= 1 && rank < n && |s| % n == 0
  {
    var parts := |s| / n;
    Arithmetic.ExactQuotient(|s|, n);
    BlockBounds(rank, n, parts);
    assert |s| == n * parts;
    s[rank * parts..(rank + 1) * parts]
  }

  function Shares<T>(s: seq<T>, n: nat): (r: seq<seq<T>>)
    requires n >= 1 && |s| % n == 0
    ensures |r| == n && forall rank :: 0 <= rank < n ==> r[rank] == Share(s, n, rank)
  {
    seq(n, rank requires 0 <= rank < n => Share(s, n, rank))
  }

  lemma {:induction false} SharesAreCut<T>(s: seq<T>, n: nat)
    requires n >= 1 && |s| % n == 0
    ensures |s| == n * (|s| / n) && Shares(s, n) == Cut(s, n, |s| / n)
  {
    Arithmetic.ExactQuotient(|s|, n);
    assert |s| == n * (|s| / n);
    forall rank | 0 <= rank < n ensures Shares(s, n)[rank] == Cut(s, n, |s| / n)[rank] {
      CutAt(s, n, |s| / n, rank);
      BlockBounds(rank, n, |s| / n);
    }
  }

  /** One row of token ids, padded with zeros. */
  function PadIds<T>(ids: seq<T>, zero: T, n: nat): (r: seq<T>)
    requires n >= 1
    ensures |r| == |ids| + Padding(|ids|, n)
  {
    ids + seq(Padding(|ids|, n), _ => zero)
  }

  /** The position ids, padded with 0, 1, 2, ... */
  function PadPositions(positions: seq<nat>, n: nat): (r: seq<nat>)
    requires n >= 1
    ensures |r| == |positions| + Padding(|positions|, n)
  {
    positions + Range(Padding(|positions|, n))
  }

  /** What one rank gets of a row of ids, of the position ids, and the pad size. */
  function PadAndSlice<T>(ids: seq<T>, positions: seq<nat>, zero: T, n: nat, rank: nat): (seq<T>, seq<nat>, nat)
    requires |ids| == |positions| && (n > 1 ==> rank < n)
  {
    if n <= 1 then (ids, positions, 0)
    else
      PaddingFills(|ids|, n);
      (Share(PadIds(ids, zero, n), n, rank), Share(PadPositions(positions, n), n, rank), Padding(|ids|, n))
  }

  /** A single rank gets everything as it is; otherwise the pad is the one that makes the length divisible. */
  lemma {:induction false} PadAndSliceAlone<T>(ids: seq<T>, positions: seq<nat>, zero: T, n: nat, rank: nat)
    requires |ids| == |positions| && (n > 1 ==> rank < n)
    ensures n <= 1 ==> PadAndSlice(ids, positions, zero, n, rank) == (ids, positions, 0)
    ensures n > 1 ==> (|ids| + PadAndSlice(ids, positions, zero, n, rank).2) % n == 0 && 0 <= PadAndSlice(ids, positions, zero, n, rank).2 < n
  {
    if n > 1 { PaddingFills(|ids|, n); }
  }

  function IdSlices<T>(ids: seq<T>, positions: seq<nat>, zero: T, n: nat): (r: seq<seq<T>>)
    requires n > 1 && |ids| == |positions|
    ensures |r| == n && forall rank :: 0 <= rank < n ==> r[rank] == PadAndSlice(ids, positions, zero, n, rank).0
  {
    seq(n, rank requires 0 <= rank < n => PadAndSlice(ids, positions, zero, n, rank).0)
  }

  function PositionSlices<T>(ids: seq<T>, positions: seq<nat>, zero: T, n: nat): (r: seq<seq<nat>>)
    requires n > 1 && |ids| == |positions|
    ensures |r| == n && forall rank :: 0 <= rank < n ==> r[rank] == PadAndSlice(ids, positions, zero, n, rank).1
  {
    seq(n, rank requires 0 <= rank < n => PadAndSlice(ids, positions, zero, n, rank).1)
  }

  /** The pad is the smallest that makes the length divisible. */
  lemma {:induction false} PaddingMinimal(size: nat, n: nat, other: nat)
    requires n >= 1 && (size + other) % n == 0
    ensures Padding(size, n) <= other
  {
    PaddingFills(size, n);
    if other < Padding(size, n) {
      Arithmetic.QuotientRemainder(size + other, n, size / n, size % n + other);
    }
  }

  /** Slices of all ranks glue to the padded input; each token keeps its position id. */
  lemma {:induction false} SlicesCover<T>(ids: seq<T>, positions: seq<nat>, zero: T, n: nat)
    requires n > 1 && |ids| == |positions|
    ensures Flatten(IdSlices(ids, positions, zero, n)) == PadIds(ids, zero, n)
    ensures Flatten(PositionSlices(ids, positions, zero, n)) == PadPositions(positions, n)
  {
    PaddingFills(|ids|, n);
    SharesAreCut(PadIds(ids, zero, n), n);
    SharesAreCut(PadPositions(positions, n), n);
    assert IdSlices(ids, positions, zero, n) == Shares(PadIds(ids, zero, n), n);
    assert PositionSlices(ids, positions, zero, n) == Shares(PadPositions(positions, n), n);
    FlattenCut(PadIds(ids, zero, n), n, |PadIds(ids, zero, n)| / n);
    FlattenCut(PadPositions(positions, n), n, |PadPositions(positions, n)| / n);
  }

  lemma {:induction false} SlicesAligned<T>(ids: seq<T>, positions: seq<nat>, zero: T, n: nat, rank: nat, i: nat)
    requires n > 1 && |ids| == |positions| && rank < n
    requires i < |PadAndSlice(ids, positions, zero, n, rank).0|
    ensures var (a, b, pad) := PadAndSlice(ids, positions, zero, n, rank);
      var g := rank * |a| + i;
      && |b| == |a| && n * |a| == |ids| + pad && g < |ids| + pad
      && a[i] == (if g < |ids| then ids[g] else zero)
      && b[i] == (if g < |ids| then positions[g] else g - |ids|)
  {
    PaddingFills(|ids|, n);
    var parts := |PadIds(ids, zero, n)| / n;
    SharesAreCut(PadIds(ids, zero, n), n);
    BlockBounds(rank, n, parts);
  }

  // ----- Gather

  /** all_gather_into_tensor stacks along the first dimension; the stack is split by the local size again and
      joined along the requested dimension. */
  function GatherAlong<T>(world: seq<Matrix<T>>, rows: nat, alongColumns: bool): Matrix<T>
    requires AllOf(world, rows)
  {
    FlattenLength(world, rows);
    var pieces := Cut(Flatten(world), |world|, rows);
    if alongColumns then CatColumns(pieces, rows) else Flatten(pieces)
  }

  function UnpadColumns<T>(x: Matrix<T>, padding: int): (r: Matrix<T>)
    ensures |r| == |x| && forall i :: 0 <= i < |x| ==> r[i] == Unpad(x[i], padding)
  {
    seq(|x|, i requires 0 <= i < |x| => Unpad(x[i], padding))
  }

  /** gather_outpus_and_unpad, unpadding the dimension that was gathered. */
  function GatherAndUnpad<T>(world: seq<Matrix<T>>, rows: nat, alongColumns: bool, padding: nat): Matrix<T>
    requires AllOf(world, rows)
  {
    var x := GatherAlong(world, rows, alongColumns);
    if padding == 0 then x else if alongColumns then UnpadColumns(x, padding) else Unpad(x, padding)
  }

  lemma {:induction false} UnpadPadded<T>(s: seq<T>, pad: seq<T>)
    requires pad != []
    ensures Unpad(s + pad, |pad|) == s
  {
  }

  /** Computing per token on the slices, gathering along the first dimension and unpadding is computing on
      the unsharded input. */
  lemma {:induction false} GatherRowsTransparent<A, B>(f: A -> seq<B>, ids: seq<A>, zero: A, n: nat)
    requires n > 1
    ensures |PadIds(ids, zero, n)| % n == 0
    ensures var shares := Shares(PadIds(ids, zero, n), n); var rows := |PadIds(ids, zero, n)| / n;
      && AllOf(Map(s => Map(f, s), shares), rows)
      && GatherAndUnpad(Map(s => Map(f, s), shares), rows, false, Padding(|ids|, n)) == Map(f, ids)
  {
    var padded := PadIds(ids, zero, n);
    PaddingFills(|ids|, n);
    var rows := |padded| / n;
    SharesAreCut(padded, n);
    CutMap(f, padded, n, rows);
    FlattenCut(Map(f, padded), n, rows);
    CutFlatten(Cut(Map(f, padded), n, rows), rows);
    MapPadded(f, ids, zero, n);
  }

  /** The same along the second dimension, for a batch of rows. */
  function PadBatch<A>(batch: seq<seq<A>>, zero: A, n: nat): (r: seq<seq<A>>)
    requires n >= 1
    ensures |r| == |batch| && forall i :: 0 <= i < |batch| ==> r[i] == PadIds(batch[i], zero, n)
  {
    seq(|batch|, i requires 0 <= i < |batch| => PadIds(batch[i], zero, n))
  }

  function ShareOfBatch<A>(padded: seq<seq<A>>, size: nat, n: nat, rank: nat): (r: seq<seq<A>>)
    requires n >= 1 && rank < n && size % n == 0 && AllOf(padded, size)
    ensures |r| == |padded| && forall i :: 0 <= i < |padded| ==> r[i] == Share(padded[i], n, rank)
  {
    seq(|padded|, i requires 0 <= i < |padded| => Share(padded[i], n, rank))
  }

  function MapRows<A, B>(f: A -> B, x: seq<seq<A>>): (r: seq<seq<B>>)
    ensures |r| == |x| && forall i :: 0 <= i < |x| ==> r[i] == Map(f, x[i])
  {
    seq(|x|, i requires 0 <= i < |x| => Map(f, x[i]))
  }

  function ComputedShares<A, B>(f: A -> B, padded: seq<seq<A>>, size: nat, n: nat): (r: seq<Matrix<B>>)
    requires n >= 1 && size % n == 0 && AllOf(padded, size)
    ensures |r| == n && forall rank :: 0 <= rank < n ==> r[rank] == MapRows(f, ShareOfBatch(padded, size, n, rank))
  {
    seq(n, rank requires 0 <= rank < n => MapRows(f, ShareOfBatch(padded, size, n, rank)))
  }

  lemma {:induction false} GatherColumnsTransparent<A, B>(f: A -> B, batch: seq<seq<A>>, size: nat, zero: A, n: nat)
    requires n > 1 && AllOf(batch, size)
    ensures (size + Padding(size, n)) % n == 0
    ensures AllOf(PadBatch(batch, zero, n), size + Padding(size, n))
    ensures GatherAndUnpad(ComputedShares(f, PadBatch(batch, zero, n), size + Padding(size, n), n), |batch|, true, Padding(size, n))
         == MapRows(f, batch)
  {
    PaddingFills(size, n);
    var padded := PadBatch(batch, zero, n);
    var world := ComputedShares(f, padded, size + Padding(size, n), n);
    CutFlatten(world, |batch|);
    var x := GatherAndUnpad(world, |batch|, true, Padding(size, n));
    forall i | 0 <= i < |batch| ensures x[i] == Map(f, batch[i]) {
      RowOfShares(f, padded, size + Padding(size, n), n, i);
      MapPadded(f, batch[i], zero, n);
    }
    assert x == MapRows(f, batch);
  }

  lemma {:induction false} MapPadded<A, B>(f: A -> B, ids: seq<A>, zero: A, n: nat)
    requires n >= 1
    ensures Padding(|ids|, n) > 0 ==> Unpad(Map(f, PadIds(ids, zero, n)), Padding(|ids|, n)) == Map(f, ids)
    ensures Padding(|ids|, n) == 0 ==> Map(f, PadIds(ids, zero, n)) == Map(f, ids)
  {
    var pad := seq(Padding(|ids|, n), _ => zero);
    assert Map(f, PadIds(ids, zero, n)) == Map(f, ids) + Map(f, pad);
    if pad != [] { UnpadPadded(Map(f, ids), Map(f, pad)); }
  }

  lemma {:induction false} RowOfShares<A, B>(f: A -> B, padded: seq<seq<A>>, size: nat, n: nat, i: nat)
    requires n >= 1 && size % n == 0 && AllOf(padded, size) && i < |padded|
    ensures Flatten(RowOf(ComputedShares(f, padded, size, n), i)) == Map(f, padded[i])
  {
    SharesAreCut(padded[i], n);
    CutMap(f, padded[i], n, size / n);
    assert RowOf(ComputedShares(f, padded, size, n), i) == Cut(Map(f, padded[i]), n, size / n);
    FlattenCut(Map(f, padded[i]), n, size / n);
  }
}
