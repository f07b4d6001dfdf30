/** Orderings, counting and sorting of sequences, shared by the analytics modules. */
module Sequences {

  datatype Option<+T> = None | Some(value: T)

  ghost predicate Ascending(s: seq<real>) {
    forall i, j | 0 <= i < j < |s| :: s[i] <= s[j]
  }

  ghost predicate StrictlyAscending(s: seq<real>) {
    forall i, j | 0 <= i < j < |s| :: s[i] < s[j]
  }

  function Min(x: real, y: real): real {
    if x <= y then x else y
  }

  lemma ProductNonnegative(x: real, y: real)
    requires 0.0 <= x && 0.0 <= y
    ensures 0.0 <= x * y
  {
  }

  lemma TakeOneMore<T>(s: seq<T>, i: nat)
    requires i < |s|
    ensures s[..i + 1] == s[..i] + [s[i]]
    ensures s[..i + 1][..i] == s[..i]
  {
  }

  lemma AscendingSnoc(s: seq<real>, x: real)
    requires Ascending(s)
    requires forall y | y in s :: y <= x
    ensures Ascending(s + [x])
  {
    assert forall i | 0 <= i < |s| :: s[i] in s;
  }

  // ----- counting by index sets

  /** Where a sequence satisfies a condition. */
  ghost function Indices<T>(s: seq<T>, p: T -> bool): set<nat> {
    set k: nat | k < |s| && p(s[k])
  }

  lemma IndicesSnoc<T>(s: seq<T>, x: T, p: T -> bool)
    ensures |Indices(s + [x], p)| == |Indices(s, p)| + if p(x) then 1 else 0
  {
    assert Indices(s + [x], p) == Indices(s, p) + if p(x) then {|s|} else {};
  }

  lemma {:induction false} IndicesConcat<T>(s: seq<T>, t: seq<T>, p: T -> bool)
    ensures |Indices(s + t, p)| == |Indices(s, p)| + |Indices(t, p)|
  {
    if t == [] {
      assert s + t == s;
      assert Indices(t, p) == {};
    } else {
      var front, last := t[..|t| - 1], t[|t| - 1];
      IndicesConcat(s, front, p);
      IndicesSnoc(s + front, last, p);
      IndicesSnoc(front, last, p);
      assert s + t == (s + front) + [last] && t == front + [last];
    }
  }

  lemma IndicesCons<T>(x: T, s: seq<T>, p: T -> bool)
    ensures |Indices([x] + s, p)| == |Indices(s, p)| + if p(x) then 1 else 0
  {
    IndicesConcat([x], s, p);
    assert Indices([], p) == {} && [] + [x] == [x];
    IndicesSnoc([], x, p);
  }

  lemma AllIndices<T>(s: seq<T>)
    ensures |Indices(s, x => true)| == |s|
  {
    BoundedNats(|s|, Indices(s, x => true));
    ManyNats(|s|, Indices(s, x => true));
  }

  lemma SubsetCardinality<T>(a: set<T>, b: set<T>)
    requires a <= b
    ensures |a| <= |b|
  {
    assert b == a + (b - a);
  }

  lemma BoundedNats(n: nat, s: set<nat>)
    requires forall k | k in s :: k < n
    ensures |s| <= n
  {
    if n == 0 {
      assert s == {};
    } else {
      BoundedNats(n - 1, s - {n - 1});
    }
  }

  lemma ManyNats(n: nat, s: set<nat>)
    requires forall k | 0 <= k < n :: k in s
    ensures n <= |s|
  {
    if n > 0 {
      ManyNats(n - 1, s - {n - 1});
    }
  }

  // ----- sorting

  function Insert(x: real, s: seq<real>): (r: seq<real>)
    requires Ascending(s)
    ensures Ascending(r)
    ensures multiset(r) == multiset(s) + multiset{x}
    ensures forall y :: y in r <==> y in s || y == x
    ensures |r| == |s| + 1
  {
    if s == [] then [x]
    else
      var front, last := s[..|s| - 1], s[|s| - 1];
      assert s == front + [last];
      if last <= x then
        AscendingSnoc(s, x); s + [x]
      else
        AscendingSnoc(Insert(x, front), last); Insert(x, front) + [last]
  }

  /** Python's `sorted` on numbers. */
  function Sort(s: seq<real>): (r: seq<real>)
    ensures Ascending(r)
    ensures multiset(r) == multiset(s)
    ensures |r| == |s|
  {
    if s == [] then []
    else
      assert s == s[..|s| - 1] + [s[|s| - 1]];
      Insert(s[|s| - 1], Sort(s[..|s| - 1]))
  }

  lemma SortKeepsMembers(s: seq<real>)
    ensures forall x :: x in Sort(s) <==> x in s
  {
    assert forall x :: x in Sort(s) <==> x in multiset(Sort(s));
    assert forall x :: x in s <==> x in multiset(s);
  }

  function InsertDistinct(x: real, s: seq<real>): (r: seq<real>)
    requires StrictlyAscending(s)
    ensures StrictlyAscending(r)
    ensures forall y :: y in r <==> y in s || y == x
  {
    if s == [] then [x]
    else
      var front, last := s[..|s| - 1], s[|s| - 1];
      assert s == front + [last];
      if last == x then s
      else if last < x then s + [x]
      else
        var r := InsertDistinct(x, front);
        assert forall i | 0 <= i < |r| :: r[i] in r && r[i] < last;
        r + [last]
  }

  /** Python's `sorted` of the set of the elements. */
  function SortedDistinct(s: seq<real>): (r: seq<real>)
    ensures StrictlyAscending(r)
    ensures forall y :: y in r <==> y in s
  {
    if s == [] then []
    else
      assert s == s[..|s| - 1] + [s[|s| - 1]];
      InsertDistinct(s[|s| - 1], SortedDistinct(s[..|s| - 1]))
  }

  /** `statistics.median`: the middle of the sorted data, or the mean of the two middle values. */
  function Median(s: seq<real>): real
    requires s != []
  {
    var r := Sort(s);
    if |r| % 2 == 1 then r[|r| / 2] else (r[|r| / 2 - 1] + r[|r| / 2]) / 2.0
  }

  lemma {:induction false} InsertKeepsCounts(x: real, s: seq<real>, p: real -> bool)
    requires Ascending(s)
    ensures |Indices(Insert(x, s), p)| == |Indices(s, p)| + if p(x) then 1 else 0
  {
    IndicesSnoc(s, x, p);
    if s == [] {
      assert s + [x] == [x];
    } else {
      var front, last := s[..|s| - 1], s[|s| - 1];
      assert s == front + [last];
      if x < last {
        InsertKeepsCounts(x, front, p);
        IndicesSnoc(front, last, p);
        IndicesSnoc(Insert(x, front), last, p);
      }
    }
  }

  lemma {:induction false} SortKeepsCounts(s: seq<real>, p: real -> bool)
    ensures |Indices(Sort(s), p)| == |Indices(s, p)|
  {
    if s != [] {
      var front, last := s[..|s| - 1], s[|s| - 1];
      assert s == front + [last];
      SortKeepsCounts(front, p);
      InsertKeepsCounts(last, Sort(front), p);
      IndicesSnoc(front, last, p);
    }
  }

  /** `x` would come at position `rank` if `s` were sorted. */
  ghost predicate Ranked(s: seq<real>, x: real, rank: nat) {
    x in s && |Indices(s, y => y < x)| <= rank < |Indices(s, y => y <= x)|
  }

  function Midpoint(lo: real, hi: real): real {
    (lo + hi) / 2.0
  }

  ghost predicate MiddleRanks(s: seq<real>, lo: real, hi: real) {
    s != [] && Ranked(s, lo, (|s| - 1) / 2) && Ranked(s, hi, |s| / 2)
  }

  /** The median is the mean of the two middle ranks, which coincide when the length is odd. */
  lemma MedianIsByRank(s: seq<real>)
    requires s != []
    ensures exists lo, hi :: MiddleRanks(s, lo, hi) && Median(s) == Midpoint(lo, hi)
  {
    var r := Sort(s);
    SortedRank(s, (|s| - 1) / 2);
    SortedRank(s, |s| / 2);
    var lo, hi := r[(|s| - 1) / 2], r[|s| / 2];
    assert MiddleRanks(s, lo, hi);
    assert Median(s) == Midpoint(lo, hi);
  }

  lemma RanksBelow(r: seq<real>, i: nat)
    requires Ascending(r) && i < |r|
    ensures |Indices(r, y => y < r[i])| <= i
  {
    BoundedNats(i, Indices(r, y => y < r[i]));
  }

  lemma RanksUpTo(r: seq<real>, i: nat)
    requires Ascending(r) && i < |r|
    ensures |Indices(r, y => y <= r[i])| > i
  {
    ManyNats(i + 1, Indices(r, y => y <= r[i]));
  }

  lemma SortedRank(s: seq<real>, i: nat)
    requires i < |s|
    ensures Ranked(s, Sort(s)[i], i)
  {
    var x := Sort(s)[i];
    SortKeepsMembers(s);
    assert x in Sort(s);
    SortKeepsCounts(s, y => y < x);
    SortKeepsCounts(s, y => y <= x);
    RanksBelow(Sort(s), i);
    RanksUpTo(Sort(s), i);
  }

  lemma RankIsUnique(s: seq<real>, x: real, y: real, rank: nat)
    requires Ranked(s, x, rank) && Ranked(s, y, rank)
    ensures x == y
  {
    if x < y {
      SubsetCardinality(Indices(s, z => z <= x), Indices(s, z => z < y));
    } else if y < x {
      SubsetCardinality(Indices(s, z => z <= y), Indices(s, z => z < x));
    }
  }
}
