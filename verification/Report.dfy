/** Which violations of one kind a validation report returns (validate.report_subset and worst_of). */
module Report {
  import opened Common
  import opened Sorting

  /** A violation with how far past its limit it went. */
  datatype Found<T> = Found(excess: real, entry: T)

  /** The indices below `n` that are in `chosen`, ascending. */
  function Picked(n: nat, chosen: set<int>): (xs: seq<int>)
    ensures forall i :: i in xs <==> 0 <= i < n && i in chosen
    ensures Ascending(xs)
  {
    if n == 0 then []
    else
      var front := Picked(n - 1, chosen);
      assert forall a :: 0 <= a < |front| ==> front[a] in front;
      front + (if n - 1 in chosen then [n - 1] else [])
  }

  /** xs[::step]: every `step`-th element from the first. */
  function Strided(xs: seq<int>, step: nat): seq<int>
    requires step > 0
  {
    if xs == [] then []
    else if |xs| <= step then [xs[0]]
    else [xs[0]] + Strided(xs[step..], step)
  }

  function Range(n: nat): seq<int> { seq(n, i => i) }

  /** Minus the excess, so that ascending stable order is descending stable order by excess. */
  function SeverityKey<T>(found: seq<Found<T>>): int -> real {
    i => if 0 <= i < |found| then -found[i].excess else 0.0
  }

  function BySeverity<T>(found: seq<Found<T>>): seq<int> { SortBy(Range(|found|), SeverityKey(found)) }

  function FirstOf(xs: seq<int>, n: nat): seq<int> { if n <= |xs| then xs[..n] else xs }

  function SetOf(xs: seq<int>): set<int> { set i | i in xs }

  function Severe<T>(found: seq<Found<T>>, cap: nat): set<int> { SetOf(FirstOf(BySeverity(found), cap / 2)) }

  /** At most `room` of `rest`, evenly spaced from the first. */
  function Thinned(rest: seq<int>, room: nat): seq<int>
    requires room >= 1
  {
    var step := if |rest| / room >= 1 then |rest| / room else 1;
    FirstOf(Strided(rest, step), room)
  }

  function Others<T>(found: seq<Found<T>>, cap: nat): set<int> { SetOf(Range(|found|)) - Severe(found, cap) }

  /** The timeline without the severe indices, thinned to fill the cap. */
  function Sampled<T>(found: seq<Found<T>>, cap: nat): seq<int>
    requires cap >= 1
  {
    Thinned(Picked(|found|, Others(found, cap)), cap - cap / 2)
  }

  /** The indices reported. */
  function Kept<T>(found: seq<Found<T>>, cap: nat): seq<int>
    requires cap >= 1
  {
    if |found| <= cap then Range(|found|)
    else Picked(|found|, Severe(found, cap) + SetOf(Sampled(found, cap)))
  }

  function ReportSubset<T>(found: seq<Found<T>>, cap: nat): seq<T>
    requires cap >= 1
  {
    var kept := Kept(found, cap);
    seq(|kept|, k requires 0 <= k < |kept| => (KeptInRange(found, cap); found[kept[k]].entry))
  }

  /** max() with a key: the first of equal maxima. */
  function WorstOf<T>(found: seq<Found<T>>): Option<Found<T>> {
    if found == [] then None
    else
      var w := WorstOf(found[..|found| - 1]);
      var last := found[|found| - 1];
      if w.None? || last.excess > w.value.excess then Some(last) else w
  }

  lemma KeptInRange<T>(found: seq<Found<T>>, cap: nat)
    requires cap >= 1
    ensures forall k :: 0 <= k < |Kept(found, cap)| ==> 0 <= Kept(found, cap)[k] < |found|
  {
    var kept := Kept(found, cap);
    assert forall k :: 0 <= k < |kept| ==> kept[k] in kept;
  }

  // ---------------------------------------------------------------- order by severity

  /** Violation `i` comes before `j` in severity: worse, or equally bad and earlier. */
  predicate MoreSevere<T>(found: seq<Found<T>>, i: int, j: int)
    requires 0 <= i < |found| && 0 <= j < |found|
  {
    found[i].excess > found[j].excess || (found[i].excess == found[j].excess && i < j)
  }

  predicate Before(key: int -> real, a: int, b: int) { key(a) < key(b) || (key(a) == key(b) && a < b) }

  ghost predicate Ranked(xs: seq<int>, key: int -> real) {
    forall a, b :: 0 <= a < b < |xs| ==> Before(key, xs[a], xs[b])
  }

  lemma PrependRanked(x: int, xs: seq<int>, key: int -> real)
    requires Ranked(xs, key) && forall y :: y in xs ==> Before(key, x, y)
    ensures Ranked([x] + xs, key)
  {
    hide Before;
    var ys := [x] + xs;
    forall a, b | 0 <= a < b < |ys|
      ensures Before(key, ys[a], ys[b])
    {
      assert ys[b] == xs[b - 1] && xs[b - 1] in xs;
      if a > 0 {
        assert ys[a] == xs[a - 1];
      }
    }
  }

  lemma {:induction false} InsertRanked(x: int, xs: seq<int>, key: int -> real)
    requires Ranked(xs, key) && forall i :: i in xs ==> x < i
    ensures Ranked(Insert(x, xs, key), key)
    ensures forall i :: i in Insert(x, xs, key) <==> i == x || i in xs
  {
    if xs == [] || key(x) <= key(xs[0]) {
      forall y | y in xs
        ensures Before(key, x, y)
      {
        var b :| 0 <= b < |xs| && xs[b] == y;
        assert b == 0 || Before(key, xs[0], xs[b]);
      }
      PrependRanked(x, xs, key);
    } else {
      var tail := xs[1..];
      assert forall i :: i in xs <==> i == xs[0] || i in tail;
      assert Ranked(tail, key);
      InsertRanked(x, tail, key);
      var rest := Insert(x, tail, key);
      forall y | y in rest
        ensures Before(key, xs[0], y)
      {
        if y != x {
          var b :| 0 <= b < |tail| && tail[b] == y;
          assert Before(key, xs[0], xs[b + 1]);
        }
      }
      hide Before, Ranked;
      PrependRanked(xs[0], rest, key);
    }
  }

  /** The sort is stable: equal keys keep their order. */
  lemma {:induction false} SortRanked(xs: seq<int>, key: int -> real)
    requires Ascending(xs)
    ensures Ranked(SortBy(xs, key), key)
    ensures forall i :: i in SortBy(xs, key) <==> i in xs
    ensures |SortBy(xs, key)| == |xs|
  {
    if xs != [] {
      SortRanked(xs[1..], key);
      assert forall i :: i in xs <==> i == xs[0] || i in xs[1..];
      InsertRanked(xs[0], SortBy(xs[1..], key), key);
      InsertMembers(xs[0], SortBy(xs[1..], key), key);
      assert |multiset(SortBy(xs, key))| == 1 + |multiset(SortBy(xs[1..], key))|;
    }
  }

  // ---------------------------------------------------------------- counting

  lemma {:induction false} SetOfSize(xs: seq<int>)
    requires Distinct(xs)
    ensures |SetOf(xs)| == |xs|
  {
    if xs == [] {
      assert SetOf(xs) == {};
    } else {
      SetOfSize(xs[1..]);
      assert forall i :: i in xs <==> i == xs[0] || i in xs[1..];
      assert SetOf(xs) == {xs[0]} + SetOf(xs[1..]);
    }
  }

  lemma PickedSize(n: nat, chosen: set<int>)
    requires forall i :: i in chosen ==> 0 <= i < n
    ensures |Picked(n, chosen)| == |chosen|
  {
    SetOfSize(Picked(n, chosen));
    assert SetOf(Picked(n, chosen)) == chosen;
  }

  /** Striding keeps the order and the members, and reaches ceil(|xs| / step) of them. */
  lemma {:induction false} StridedAscends(xs: seq<int>, step: nat)
    requires step > 0 && Ascending(xs)
    ensures Ascending(Strided(xs, step)) && forall i :: i in Strided(xs, step) ==> i in xs
    decreases |xs|
  {
    if |xs| > step {
      var tail, rest := xs[step..], Strided(xs[step..], step);
      StridedAscends(tail, step);
      forall b | 0 <= b < |rest|
        ensures xs[0] < rest[b]
      {
        assert rest[b] in rest;
        var c :| 0 <= c < |tail| && tail[c] == rest[b];
        assert tail[c] == xs[step + c];
      }
    }
  }

  lemma {:induction false} StridedReaches(xs: seq<int>, step: nat, room: nat)
    requires step > 0 && room * step <= |xs|
    ensures |Strided(xs, step)| >= room
    decreases |xs|
  {
    if room > 0 {
      assert room * step == step + (room - 1) * step;
      if |xs| > step {
        StridedReaches(xs[step..], step, room - 1);
      }
    }
  }

  // ---------------------------------------------------------------- the report

  lemma RangeMembers(n: nat)
    ensures forall i :: i in Range(n) <==> 0 <= i < n
  {
    forall i | 0 <= i < n
      ensures i in Range(n)
    {
      assert Range(n)[i] == i;
    }
  }

  /** The `cap / 2` most severe violations, ties to the earliest. */
  lemma SevereSet<T>(found: seq<Found<T>>, cap: nat)
    requires |found| > cap
    ensures var s := Severe(found, cap);
            && |s| == cap / 2 && (forall i :: i in s ==> 0 <= i < |found|)
            && (forall i, j :: i in s && 0 <= j < |found| && j !in s ==> MoreSevere(found, i, j))
  {
    var key := SeverityKey(found);
    var order := BySeverity(found);
    SortRanked(Range(|found|), key);
    RangeMembers(|found|);
    var front := order[..cap / 2];
    assert Distinct(front);
    SetOfSize(front);
    forall i, j | i in front && 0 <= j < |found| && j !in front
      ensures 0 <= i < |found| && MoreSevere(found, i, j)
    {
      assert i in order && i in Range(|found|) && j in Range(|found|) && j in order;
      var a :| 0 <= a < cap / 2 && front[a] == i;
      assert forall c :: 0 <= c < |front| ==> order[c] == front[c] && front[c] in front;
      var b :| 0 <= b < |order| && order[b] == j;
      assert Before(key, order[a], order[b]);
    }
    forall i | i in front
      ensures 0 <= i < |found|
    {
      assert i in order && i in Range(|found|);
    }
  }

  /** How many indices are not severe. */
  lemma OthersSize<T>(found: seq<Found<T>>, cap: nat)
    requires cap >= 1 && |found| > cap
    ensures |Others(found, cap)| == |found| - cap / 2
    ensures forall i :: i in Others(found, cap) <==> 0 <= i < |found| && i !in Severe(found, cap)
  {
    SevereSet(found, cap);
    RangeMembers(|found|);
    hide Severe;
    SetOfSize(Range(|found|));
    forall i | i in Severe(found, cap)
      ensures i in SetOf(Range(|found|))
    {
      assert i in Range(|found|);
    }
  }

  /** The stride never leaves room unfilled. */
  lemma StrideFits(count: nat, room: nat)
    requires 1 <= room <= count
    ensures count / room >= 1 && room * (count / room) <= count
  {
    assert count == room * (count / room) + count % room;
  }

  lemma ThinnedFills(rest: seq<int>, room: nat)
    requires 1 <= room <= |rest| && Ascending(rest)
    ensures Ascending(Thinned(rest, room)) && |Thinned(rest, room)| == room
    ensures forall i :: i in Thinned(rest, room) ==> i in rest
  {
    var step := |rest| / room;
    StrideFits(|rest|, room);
    StridedAscends(rest, step);
    StridedReaches(rest, step, room);
    var strided := Strided(rest, step);
    hide Strided;
    assert Thinned(rest, room) == strided[..room];
    assert forall i :: i in strided[..room] ==> i in strided;
  }

  lemma {:induction false} StridedAt(xs: seq<int>, step: nat, k: nat)
    requires step > 0 && k < |Strided(xs, step)|
    ensures k * step < |xs| && Strided(xs, step)[k] == xs[k * step]
    decreases k
  {
    if k > 0 {
      StridedAt(xs[step..], step, k - 1);
      assert k * step == step + (k - 1) * step;
    }
  }

  /** The sample is even: every `step`-th of the rest, `step` being what fits its room. */
  lemma ThinnedEvenly(rest: seq<int>, room: nat, k: nat)
    requires 1 <= room <= |rest| && Ascending(rest) && k < room
    ensures k * (|rest| / room) < |rest| && |Thinned(rest, room)| == room
    ensures Thinned(rest, room)[k] == rest[k * (|rest| / room)]
  {
    ThinnedFills(rest, room);
    StrideFits(|rest|, room);
    StridedAt(rest, |rest| / room, k);
    hide Strided;
  }

  /** The sample fills the room the severe half leaves, from the rest of the timeline. */
  lemma SampledFills<T>(found: seq<Found<T>>, cap: nat)
    requires cap >= 1 && |found| > cap
    ensures var sample := Sampled(found, cap);
            && Ascending(sample) && |sample| == cap - cap / 2
            && (forall i :: i in sample ==> 0 <= i < |found| && i !in Severe(found, cap))
  {
    hide Severe, Picked, Thinned, Others;
    OthersSize(found, cap);
    PickedSize(|found|, Others(found, cap));
    ThinnedFills(Picked(|found|, Others(found, cap)), cap - cap / 2);
  }

  /** For any violations and any cap of at least one: exactly min(n, cap) distinct ones are kept, in time
    * order, among them the cap / 2 most severe. */
  lemma KeepsTheSevere<T>(found: seq<Found<T>>, cap: nat)
    requires cap >= 1
    ensures Ascending(Kept(found, cap)) && (forall i :: i in Kept(found, cap) ==> 0 <= i < |found|)
    ensures |Kept(found, cap)| == if |found| <= cap then |found| else cap
    ensures |found| > cap ==>
              && |Severe(found, cap)| == cap / 2
              && (forall i :: i in Severe(found, cap) ==> i in Kept(found, cap))
              && (forall i, j :: i in Severe(found, cap) && 0 <= j < |found| && j !in Severe(found, cap) ==>
                    0 <= i < |found| && MoreSevere(found, i, j))
  {
    if |found| > cap {
      SevereSet(found, cap);
      SampledFills(found, cap);
      var sample := Sampled(found, cap);
      SetOfSize(sample);
      hide Severe, Sampled;
      assert Severe(found, cap) !! SetOf(sample);
      PickedSize(|found|, Severe(found, cap) + SetOf(sample));
    }
  }

  /** The worst violation is a first maximum. */
  lemma {:induction false} WorstIsFirstMaximum<T>(found: seq<Found<T>>) returns (w: nat)
    requires found != []
    ensures w < |found| && WorstOf(found) == Some(found[w])
    ensures forall j :: 0 <= j < |found| && j != w ==> MoreSevere(found, w, j)
  {
    var n := |found| - 1;
    if n == 0 {
      w := 0;
    } else {
      var v := WorstIsFirstMaximum(found[..n]);
      forall j | 0 <= j < n && j != v
        ensures MoreSevere(found, v, j)
      {
        assert MoreSevere(found[..n], v, j);
      }
      w := if found[n].excess > found[v].excess then n else v;
      forall j | 0 <= j <= n && j != w
        ensures MoreSevere(found, w, j)
      {
        assert j == n || j == v || MoreSevere(found, v, j);
      }
    }
  }

  lemma NotBoth<T>(found: seq<Found<T>>, i: int, j: int)
    requires 0 <= i < |found| && 0 <= j < |found| && MoreSevere(found, i, j)
    ensures !MoreSevere(found, j, i)
  {
  }

  lemma WorstIsSevere<T>(found: seq<Found<T>>, cap: nat, w: nat)
    requires 2 <= cap < |found| && w < |found|
    requires forall j :: 0 <= j < |found| && j != w ==> MoreSevere(found, w, j)
    ensures w in Severe(found, cap)
  {
    hide Severe, MoreSevere;
    SevereSet(found, cap);
    SomeElement(Severe(found, cap));
    var i :| i in Severe(found, cap);
    if i != w {
      NotBoth(found, w, i);
    }
  }

  /** The worst violation is kept. */
  lemma WorstIsKept<T>(found: seq<Found<T>>, cap: nat, w: nat)
    requires cap >= 2 && w < |found|
    requires forall j :: 0 <= j < |found| && j != w ==> MoreSevere(found, w, j)
    ensures w in Kept(found, cap)
  {
    hide Severe, MoreSevere;
    if |found| > cap {
      hide Kept;
      WorstIsSevere(found, cap, w);
      KeepsTheSevere(found, cap);
    } else {
      RangeMembers(|found|);
    }
  }

  /** Truncation never hides a failure: the report is empty only when nothing was found, and from a cap of
    * two on it holds the worst violation. */
  lemma ReportNeverHides<T>(found: seq<Found<T>>, cap: nat)
    requires cap >= 1
    ensures ReportSubset(found, cap) == [] <==> found == []
    ensures cap >= 2 && found != [] ==>
              WorstOf(found).Some? && WorstOf(found).value.entry in ReportSubset(found, cap)
  {
    hide Kept, Severe, WorstOf;
    KeepsTheSevere(found, cap);
    assert |ReportSubset(found, cap)| == |Kept(found, cap)|;
    if cap >= 2 && found != [] {
      var w := WorstIsFirstMaximum(found);
      WorstIsKept(found, cap, w);
      var k :| 0 <= k < |Kept(found, cap)| && Kept(found, cap)[k] == w;
      assert ReportSubset(found, cap)[k] == found[w].entry;
    }
  }

  function Entries<T>(found: seq<Found<T>>): seq<T> { seq(|found|, i requires 0 <= i < |found| => found[i].entry) }

  /** The report keeps the order of what was found: found in order of a key, it is in that order for every cap,
    * and when nothing is cut exactly then. */
  lemma ReportInOrder<T>(found: seq<Found<T>>, cap: nat, key: T -> real)
    requires cap >= 1
    ensures Sorted(Entries(found), key) ==> Sorted(ReportSubset(found, cap), key)
    ensures |found| <= cap ==> (Sorted(ReportSubset(found, cap), key) <==> Sorted(Entries(found), key))
  {
    KeepsTheSevere(found, cap);
    KeptInRange(found, cap);
    var kept, reported, all := Kept(found, cap), ReportSubset(found, cap), Entries(found);
    assert forall k :: 0 <= k < |kept| ==> reported[k] == all[kept[k]];
    if |found| <= cap {
      assert forall k :: 0 <= k < |kept| ==> kept[k] == k;
      assert reported == all;
    }
    hide Kept, Severe, ReportSubset, Entries;
  }
}
