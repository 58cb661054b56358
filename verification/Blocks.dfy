/** Cutting a sequence into equal blocks and gluing blocks together. */
module Blocks {
  import opened Sequences
  import Arithmetic

  lemma {:induction false} BlockBounds(i: nat, n: nat, size: nat)
    requires i < n
    ensures i * size + size == (i + 1) * size <= n * size
  {
    Arithmetic.Distribute(i, 1, size);
    Arithmetic.MulMonotone(i + 1, n, size);
  }

  /** The n equal blocks of a sequence, in order. */
  function Cut<T>(s: seq<T>, n: nat, size: nat): (r: seq<seq<T>>)
    requires |s| == n * size
    ensures |r| == n && forall i :: 0 <= i < n ==> |r[i]| == size
  {
    if n == 0 then []
    else
      BlockBounds(0, n, size);
      Arithmetic.Distribute(n - 1, 1, size);
      [s[..size]] + Cut(s[size..], n - 1, size)
  }

  lemma {:induction false} CutFirst<T>(s: seq<T>, n: nat, size: nat)
    requires |s| == n * size && n > 0
    ensures size <= |s| && |s[size..]| == (n - 1) * size
    ensures Cut(s, n, size) == [s[..size]] + Cut(s[size..], n - 1, size)
  {
    BlockBounds(0, n, size);
    Arithmetic.Distribute(n - 1, 1, size);
  }

  lemma {:induction false} SliceShift<T>(s: seq<T>, size: nat, from: nat)
    requires from + size + size <= |s|
    ensures s[size..][from..from + size] == s[from + size..from + size + size]
  {
  }

  lemma {:induction false} CutAt<T>(s: seq<T>, n: nat, size: nat, i: nat)
    requires |s| == n * size && i < n
    ensures i * size + size <= |s| && Cut(s, n, size)[i] == s[i * size..i * size + size]
    decreases i
  {
    hide Cut;
    CutFirst(s, n, size);
    BlockBounds(i, n, size);
    if i == 0 {
      assert s[0..size] == s[..size];
    } else {
      CutAt(s[size..], n - 1, size, i - 1);
      Arithmetic.Distribute(i - 1, 1, size);
      SliceShift(s, size, (i - 1) * size);
    }
  }

  /** Gluing the blocks gives the sequence back. */
  lemma {:induction false} FlattenCut<T>(s: seq<T>, n: nat, size: nat)
    requires |s| == n * size
    ensures Flatten(Cut(s, n, size)) == s
  {
    if n > 0 {
      Arithmetic.Distribute(n - 1, 1, size);
      BlockBounds(0, n, size);
      FlattenCut(s[size..], n - 1, size);
    }
  }

  predicate AllOf<T>(parts: seq<seq<T>>, size: nat) {
    forall i :: 0 <= i < |parts| ==> |parts[i]| == size
  }

  lemma {:induction false} FlattenLength<T>(parts: seq<seq<T>>, size: nat)
    requires AllOf(parts, size)
    ensures |Flatten(parts)| == |parts| * size
  {
    if parts != [] {
      FlattenLength(parts[1..], size);
      Arithmetic.Distribute(|parts| - 1, 1, size);
    }
  }

  /** Cutting glued blocks gives the blocks back. */
  lemma {:induction false} CutFlatten<T>(parts: seq<seq<T>>, size: nat)
    requires AllOf(parts, size)
    ensures |Flatten(parts)| == |parts| * size
    ensures Cut(Flatten(parts), |parts|, size) == parts
  {
    FlattenLength(parts, size);
    if parts != [] {
      CutFlatten(parts[1..], size);
      assert Flatten(parts)[..size] == parts[0] && Flatten(parts)[size..] == Flatten(parts[1..]);
    }
  }

  /** Position i * size + j of the glued blocks is position j of block i. */
  lemma {:induction false} FlattenAt<T>(parts: seq<seq<T>>, size: nat, i: nat, j: nat)
    requires AllOf(parts, size) && i < |parts| && j < size
    ensures i * size + j < |Flatten(parts)| && Flatten(parts)[i * size + j] == parts[i][j]
  {
    FlattenLength(parts, size);
    BlockBounds(i, |parts|, size);
    CutFlatten(parts, size);
    CutAt(Flatten(parts), |parts|, size, i);
  }

  /** Mapping commutes with cutting. */
  lemma {:induction false} CutMap<A, B>(f: A -> B, s: seq<A>, n: nat, size: nat)
    requires |s| == n * size
    ensures Cut(Map(f, s), n, size) == Map(b => Map(f, b), Cut(s, n, size))
  {
    if n > 0 {
      Arithmetic.Distribute(n - 1, 1, size);
      BlockBounds(0, n, size);
      CutMap(f, s[size..], n - 1, size);
      assert Map(f, s)[size..] == Map(f, s[size..]);
      assert Map(f, s)[..size] == Map(f, s[..size]);
    }
  }
}
