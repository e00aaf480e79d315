/** Python's sorted(): stable, by a real key, ascending. */
module Sorting {
  predicate Ascending(xs: seq<int>) { forall a, b :: 0 <= a < b < |xs| ==> xs[a] < xs[b] }

  predicate Distinct(xs: seq<int>) { forall a, b :: 0 <= a < b < |xs| ==> xs[a] != xs[b] }

  /** Inserts `x` in front of the first element whose key is not smaller. */
  function Insert<T>(x: T, xs: seq<T>, key: T -> real): seq<T> {
    if xs == [] || key(x) <= key(xs[0]) then [x] + xs
    else [xs[0]] + Insert(x, xs[1..], key)
  }

  /** Inserting the head in front of its equals is what makes the sort stable. */
  function SortBy<T>(xs: seq<T>, key: T -> real): seq<T> {
    if xs == [] then [] else Insert(xs[0], SortBy(xs[1..], key), key)
  }

  ghost predicate Sorted<T>(xs: seq<T>, key: T -> real) {
    forall i, j :: 0 <= i < j < |xs| ==> key(xs[i]) <= key(xs[j])
  }

  lemma {:induction false} InsertMembers<T>(x: T, xs: seq<T>, key: T -> real)
    ensures multiset(Insert(x, xs, key)) == multiset{x} + multiset(xs)
  {
    if xs == [] || key(x) <= key(xs[0]) {
    } else {
      InsertMembers(x, xs[1..], key);
      assert xs == [xs[0]] + xs[1..];
    }
  }

  lemma {:induction false} InsertSorted<T>(x: T, xs: seq<T>, key: T -> real)
    requires Sorted(xs, key)
    ensures Sorted(Insert(x, xs, key), key)
  {
    if xs == [] || key(x) <= key(xs[0]) {
    } else {
      var rest := Insert(x, xs[1..], key);
      InsertSorted(x, xs[1..], key);
      InsertMembers(x, xs[1..], key);
      forall j | 0 <= j < |rest| ensures key(xs[0]) <= key(rest[j]) {
        assert rest[j] in multiset(rest);
        if rest[j] != x {
          var i :| 0 <= i < |xs[1..]| && xs[1..][i] == rest[j];
          assert key(xs[0]) <= key(xs[i + 1]);
        }
      }
    }
  }

  /** The result is a sorted rearrangement of the input. */
  lemma {:induction false} SortByCorrect<T>(xs: seq<T>, key: T -> real)
    ensures Sorted(SortBy(xs, key), key)
    ensures multiset(SortBy(xs, key)) == multiset(xs)
    ensures |SortBy(xs, key)| == |xs|
  {
    if xs == [] {
    } else {
      SortByCorrect(xs[1..], key);
      InsertSorted(xs[0], SortBy(xs[1..], key), key);
      InsertMembers(xs[0], SortBy(xs[1..], key), key);
      assert xs == [xs[0]] + xs[1..];
    }
    assert |multiset(SortBy(xs, key))| == |multiset(xs)|;
  }

  lemma SortByMembers<T>(xs: seq<T>, key: T -> real, x: T)
    ensures x in SortBy(xs, key) <==> x in xs
  {
    SortByCorrect(xs, key);
    assert x in multiset(xs) <==> x in multiset(SortBy(xs, key));
  }

  /** No key of `a` is larger than one of `b`. */
  ghost predicate NoneLarger<T>(a: seq<T>, b: seq<T>, key: T -> real) {
    forall x, y :: x in a && y in b ==> key(x) <= key(y)
  }

  lemma JoinSorted<T>(a: seq<T>, b: seq<T>, key: T -> real)
    ensures Sorted(a + b, key) <==> Sorted(a, key) && Sorted(b, key) && NoneLarger(a, b, key)
  {
    var ab := a + b;
    assert forall i :: 0 <= i < |a| ==> ab[i] == a[i];
    assert forall j :: 0 <= j < |b| ==> ab[|a| + j] == b[j];
    if Sorted(a, key) && Sorted(b, key) && NoneLarger(a, b, key) {
      forall i, j | 0 <= i < j < |ab|
        ensures key(ab[i]) <= key(ab[j])
      {
        assert i < |a| <= j ==> ab[i] in a && ab[j] in b;
        assert i >= |a| ==> ab[i] == b[i - |a|] && ab[j] == b[j - |a|];
      }
    }
    if Sorted(ab, key) {
      forall i, j | 0 <= i < |a| && 0 <= j < |b|
        ensures key(a[i]) <= key(b[j])
      {
        assert key(ab[i]) <= key(ab[|a| + j]);
      }
      forall i, j | 0 <= i < j < |b|
        ensures key(b[i]) <= key(b[j])
      {
        assert key(ab[|a| + i]) <= key(ab[|a| + j]);
      }
    }
  }
}
