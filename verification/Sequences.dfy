/** Small sequence vocabulary shared by the other modules. */
module Sequences {
  import Arithmetic

  datatype Option<+T> = None | Some(value: T)

  datatype Result<+T> = Ok(value: T) | Err(error: Failure)

  /** The ways in which the modelled Python code refuses its input. */
  datatype Failure =
    | AssertionFailed
    | IndexOutOfRange
    | DivisionByZero
    | TypeMismatch
    | NoUserMessage
    | KeyMissing
    | ShapeMismatch

  function Sum(s: seq<int>): int {
    if s == [] then 0 else s[0] + Sum(s[1..])
  }

  lemma {:induction false} SumAppend(a: seq<int>, b: seq<int>)
    ensures Sum(a + b) == Sum(a) + Sum(b)
  {
    if a == [] {
      assert a + b == b;
    } else {
      assert (a + b)[1..] == a[1..] + b;
      SumAppend(a[1..], b);
    }
  }

  lemma {:induction false} SumNonNegative(s: seq<int>)
    requires forall i :: 0 <= i < |s| ==> s[i] >= 0
    ensures Sum(s) >= 0
    ensures forall i :: 0 <= i < |s| ==> s[i] <= Sum(s)
  {
    if s != [] {
      SumNonNegative(s[1..]);
      forall i | 0 <= i < |s| ensures s[i] <= Sum(s) {
        if i > 0 { assert s[i] == s[1..][i - 1]; }
      }
    }
  }

  /** Adding to one slot adds to the sum. */
  lemma {:induction false} SumUpdate(s: seq<int>, i: nat, v: int)
    requires i < |s|
    ensures Sum(s[i := v]) == Sum(s) - s[i] + v
  {
    assert s == s[..i] + [s[i]] + s[i + 1..];
    assert s[i := v] == s[..i] + [v] + s[i + 1..];
    SumAppend(s[..i] + [s[i]], s[i + 1..]);
    SumAppend(s[..i], [s[i]]);
    SumAppend(s[..i] + [v], s[i + 1..]);
    SumAppend(s[..i], [v]);
  }

  /** If every entry is within d of the entry h, then |s| * h exceeds the sum by at most (|s| - 1) * d. */
  lemma {:induction false} SumNearMaximum(s: seq<int>, h: nat, d: int)
    requires h < |s|
    requires forall i :: 0 <= i < |s| ==> s[h] - s[i] <= d
    ensures |s| * s[h] <= Sum(s) + (|s| - 1) * d
  {
    var low := s[h] - d;
    SumFloor(s[..h], low);
    SumFloor(s[h + 1..], low);
    assert s == s[..h] + [s[h]] + s[h + 1..];
    SumAppend(s[..h] + [s[h]], s[h + 1..]);
    SumAppend(s[..h], [s[h]]);
    Arithmetic.Distribute(h, |s| - h - 1, low);
    Arithmetic.Distribute(|s| - 1, 1, low);
    DistributeDifference(|s|, s[h], d);
  }

  lemma {:induction false} DistributeDifference(n: int, x: int, d: int)
    ensures (n - 1) * (x - d) == n * x - x - (n - 1) * d
  {
  }

  lemma {:induction false} SumFloor(s: seq<int>, low: int)
    requires forall i :: 0 <= i < |s| ==> low <= s[i]
    ensures |s| * low <= Sum(s)
  {
    if s != [] {
      SumFloor(s[1..], low);
      assert |s| * low == low + |s[1..]| * low;
    }
  }

  function Flatten<T>(parts: seq<seq<T>>): seq<T> {
    if parts == [] then [] else parts[0] + Flatten(parts[1..])
  }

  lemma {:induction false} FlattenAppend<T>(a: seq<seq<T>>, b: seq<seq<T>>)
    ensures Flatten(a + b) == Flatten(a) + Flatten(b)
  {
    if a == [] {
      assert a + b == b;
    } else {
      assert (a + b)[1..] == a[1..] + b;
      FlattenAppend(a[1..], b);
    }
  }

  function Map<A, B>(f: A -> B, s: seq<A>): (r: seq<B>)
    ensures |r| == |s| && forall i :: 0 <= i < |s| ==> r[i] == f(s[i])
  {
    seq(|s|, i requires 0 <= i < |s| => f(s[i]))
  }

  /** Mapping piece by piece and gluing is mapping the glued whole. */
  lemma {:induction false} FlattenMap<A, B>(f: A -> B, parts: seq<seq<A>>)
    ensures Flatten(Map(p => Map(f, p), parts)) == Map(f, Flatten(parts))
  {
    var g := (p: seq<A>) => Map(f, p);
    if parts != [] {
      FlattenMap(f, parts[1..]);
      assert Map(g, parts)[1..] == Map(g, parts[1..]);
      assert Map(f, Flatten(parts)) == Map(f, parts[0]) + Map(f, Flatten(parts[1..]));
    }
  }

  /** Python's treatment of a slice bound. */
  function Bound(size: nat, i: int): (b: nat)
    ensures b <= size
  {
    if i < 0 then (if size + i < 0 then 0 else size + i) else if i > size then size else i
  }

  /** s[from:to] */
  function Slice<T>(s: seq<T>, from: int, to: int): seq<T> {
    var a, b := Bound(|s|, from), Bound(|s|, to);
    if a <= b then s[a..b] else []
  }

  function Range(n: nat): (r: seq<nat>)
    ensures |r| == n && forall i :: 0 <= i < n ==> r[i] == i
  {
    seq(n, i => i)
  }

  predicate Distinct<T(==)>(s: seq<T>) {
    forall i, j :: 0 <= i < j < |s| ==> s[i] != s[j]
  }

  /** A sequence is an arrangement of 0..n-1: every index occurs, and none twice. */
  ghost predicate IsPermutation(s: seq<nat>, n: nat) {
    multiset(s) == multiset(Range(n))
  }

  lemma {:induction false} PermutationFacts(s: seq<nat>, n: nat)
    requires IsPermutation(s, n)
    ensures |s| == n
    ensures forall i :: 0 <= i < |s| ==> s[i] < n
    ensures Distinct(s)
    ensures forall v: nat :: v < n ==> v in s
  {
    var range := Range(n);
    assert |multiset(s)| == |multiset(range)|;
    forall i | 0 <= i < |s| ensures s[i] < n {
      assert s[i] in multiset(range);
    }
    forall i, j | 0 <= i < j < |s| ensures s[i] != s[j] {
      if s[i] == s[j] {
        TwiceInMultiset(s, i, j);
        OnceInRange(n, s[i]);
        assert false;
      }
    }
    forall v: nat | v < n ensures v in s {
      assert range[v] in multiset(range);
      assert v in multiset(s);
    }
  }

  lemma {:induction false} TwiceInMultiset<T>(s: seq<T>, i: nat, j: nat)
    requires i < j < |s| && s[i] == s[j]
    ensures multiset(s)[s[i]] >= 2
  {
    assert s == s[..i] + [s[i]] + s[i + 1..j] + [s[j]] + s[j + 1..];
  }

  lemma {:induction false} OnceInRange(n: nat, v: nat)
    requires v < n
    ensures multiset(Range(n))[v] == 1
  {
    var r := Range(n);
    assert r == r[..v] + [v] + r[v + 1..];
    assert v !in multiset(r[..v]);
    assert v !in multiset(r[v + 1..]);
    assert multiset(r) == multiset(r[..v]) + multiset([v]) + multiset(r[v + 1..]);
  }

  /** Distinct members of equal multiplicity: two sequences without repeats and with the same members agree as multisets. */
  lemma {:induction false} DistinctMultiset<T>(s: seq<T>)
    requires Distinct(s)
    ensures forall x :: multiset(s)[x] == if x in s then 1 else 0
  {
    if s != [] {
      DistinctMultiset(s[1..]);
      assert s == [s[0]] + s[1..];
      assert s[0] !in s[1..];
    }
  }
}
