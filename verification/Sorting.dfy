/** Python's sorted, for any order: a stable insertion sort. */
module Sorting {

  /** x goes before the first element that it need not follow. */
  function InsertBy<T>(before: (T, T) -> bool, x: T, rest: seq<T>): (r: seq<T>)
    ensures multiset(r) == multiset{x} + multiset(rest)
    ensures |r| == |rest| + 1
  {
    if rest == [] || !before(rest[0], x) then [x] + rest
    else
      assert rest == [rest[0]] + rest[1..];
      [rest[0]] + InsertBy(before, x, rest[1..])
  }

  function SortBy<T>(before: (T, T) -> bool, s: seq<T>): (r: seq<T>)
    ensures multiset(r) == multiset(s)
    ensures |r| == |s|
  {
    if s == [] then []
    else
      assert s == [s[0]] + s[1..];
      InsertBy(before, s[0], SortBy(before, s[1..]))
  }

  /** An order in which elements may tie: strict, and not-before is transitive. */
  ghost predicate WeakOrder<T(!new)>(before: (T, T) -> bool) {
    && (forall a, b :: before(a, b) ==> !before(b, a))
    && (forall a, b, c :: !before(b, a) && !before(c, b) ==> !before(c, a))
  }

  predicate Ordered<T>(before: (T, T) -> bool, s: seq<T>) {
    forall i, j :: 0 <= i < j < |s| ==> !before(s[j], s[i])
  }

  lemma {:induction false} InsertOrdered<T(!new)>(before: (T, T) -> bool, x: T, rest: seq<T>)
    requires WeakOrder(before) && Ordered(before, rest)
    ensures Ordered(before, InsertBy(before, x, rest))
  {
    if rest != [] && before(rest[0], x) {
      InsertOrdered(before, x, rest[1..]);
      var tail := InsertBy(before, x, rest[1..]);
      forall j | 0 <= j < |tail| ensures !before(tail[j], rest[0]) {
        assert tail[j] in multiset(tail);
        if tail[j] != x {
          var i :| 0 <= i < |rest[1..]| && rest[1..][i] == tail[j];
          assert rest[i + 1] == tail[j];
        }
      }
    } else if rest != [] {
      forall j | 0 <= j < |rest| ensures !before(rest[j], x) {
        assert !before(rest[0], x);
      }
    }
  }

  /** Nothing in the result must come before anything ahead of it. */
  lemma {:induction false} SortOrdered<T(!new)>(before: (T, T) -> bool, s: seq<T>)
    requires WeakOrder(before)
    ensures Ordered(before, SortBy(before, s))
  {
    if s != [] {
      SortOrdered(before, s[1..]);
      InsertOrdered(before, s[0], SortBy(before, s[1..]));
    }
  }
}
