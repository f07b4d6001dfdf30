/** Agreement between two annotators: Cohen's kappa and its bounds. */
module Kappa {

  type Label = string

  function Count(s: seq<Label>, c: Label): nat {
    if s == [] then 0 else Count(s[1..], c) + if s[0] == c then 1 else 0
  }

  function Agreements(a: seq<Label>, b: seq<Label>): nat
    requires |a| == |b|
  {
    if a == [] then 0 else Agreements(a[1..], b[1..]) + if a[0] == b[0] then 1 else 0
  }

  /** Any order in which the set of all labels used may be walked. */
  ghost predicate Categories(cats: seq<Label>, a: seq<Label>, b: seq<Label>) {
    && (forall i, j | 0 <= i < j < |cats| :: cats[i] != cats[j])
    && (forall c :: c in cats <==> c in a || c in b)
  }

  function ChanceAgreement(a: seq<Label>, b: seq<Label>, cats: seq<Label>): real
    requires |a| == |b| > 0
  {
    if cats == [] then 0.0
    else
      var n := |a| as real;
      (Count(a, cats[0]) as real / n) * (Count(b, cats[0]) as real / n) + ChanceAgreement(a, b, cats[1..])
  }

  function CohensKappa(a: seq<Label>, b: seq<Label>, cats: seq<Label>): real {
    if |a| == 0 || |a| != |b| then 0.0
    else
      var po := Agreements(a, b) as real / |a| as real;
      var pe := ChanceAgreement(a, b, cats);
      if 1.0 - pe == 0.0 then 1.0 else (po - pe) / (1.0 - pe)
  }

  // ----- counting

  /** Positions at which both annotators say `c`. */
  function Both(a: seq<Label>, b: seq<Label>, c: Label): nat
    requires |a| == |b|
  {
    if a == [] then 0 else Both(a[1..], b[1..], c) + if a[0] == c && b[0] == c then 1 else 0
  }

  lemma {:induction false} CountsOverlap(a: seq<Label>, b: seq<Label>, c: Label)
    requires |a| == |b|
    ensures Count(a, c) + Count(b, c) <= |a| + Both(a, b, c)
    ensures Count(a, c) <= |a| && Count(b, c) <= |b|
  {
    if a != [] {
      CountsOverlap(a[1..], b[1..], c);
    }
  }

  function SumCounts(cats: seq<Label>, a: seq<Label>): nat {
    if cats == [] then 0 else Count(a, cats[0]) + SumCounts(cats[1..], a)
  }

  function SumBoth(cats: seq<Label>, a: seq<Label>, b: seq<Label>): nat
    requires |a| == |b|
  {
    if cats == [] then 0 else Both(a, b, cats[0]) + SumBoth(cats[1..], a, b)
  }

  function SumProducts(cats: seq<Label>, a: seq<Label>, b: seq<Label>): nat {
    if cats == [] then 0 else Count(a, cats[0]) * Count(b, cats[0]) + SumProducts(cats[1..], a, b)
  }

  lemma {:induction false} CountOfDistinct(cats: seq<Label>, x: Label)
    requires forall i, j | 0 <= i < j < |cats| :: cats[i] != cats[j]
    ensures Count(cats, x) == if x in cats then 1 else 0
  {
    if cats != [] {
      CountOfDistinct(cats[1..], x);
      assert cats[0] !in cats[1..] by {
        assert forall j | 0 <= j < |cats[1..]| :: cats[1..][j] == cats[j + 1];
      }
    }
  }

  lemma {:induction false} SumCountsStep(cats: seq<Label>, a: seq<Label>)
    requires a != []
    ensures SumCounts(cats, a) == SumCounts(cats, a[1..]) + Count(cats, a[0])
  {
    if cats != [] {
      SumCountsStep(cats[1..], a);
    }
  }

  lemma {:induction false} SumBothStep(cats: seq<Label>, a: seq<Label>, b: seq<Label>)
    requires |a| == |b| && a != []
    ensures SumBoth(cats, a, b) == SumBoth(cats, a[1..], b[1..]) + if a[0] == b[0] then Count(cats, a[0]) else 0
  {
    if cats != [] {
      SumBothStep(cats[1..], a, b);
    }
  }

  lemma {:induction false} CountsAddUp(cats: seq<Label>, a: seq<Label>)
    requires forall i, j | 0 <= i < j < |cats| :: cats[i] != cats[j]
    requires forall x | x in a :: x in cats
    ensures SumCounts(cats, a) == |a|
  {
    if a == [] {
      EmptyCounts(cats);
    } else {
      SumCountsStep(cats, a);
      CountOfDistinct(cats, a[0]);
      CountsAddUp(cats, a[1..]);
    }
  }

  lemma {:induction false} EmptyCounts(cats: seq<Label>)
    ensures SumCounts(cats, []) == 0 && SumBoth(cats, [], []) == 0
  {
    if cats != [] {
      EmptyCounts(cats[1..]);
    }
  }

  lemma {:induction false} AgreementsAddUp(cats: seq<Label>, a: seq<Label>, b: seq<Label>)
    requires |a| == |b|
    requires forall i, j | 0 <= i < j < |cats| :: cats[i] != cats[j]
    requires forall x | x in a :: x in cats
    ensures SumBoth(cats, a, b) == Agreements(a, b)
  {
    if a == [] {
      EmptyCounts(cats);
    } else {
      SumBothStep(cats, a, b);
      CountOfDistinct(cats, a[0]);
      AgreementsAddUp(cats, a[1..], b[1..]);
    }
  }

  // ----- the quadratic bound

  lemma Distribute(k: int, x: int, y: int)
    ensures k * (x + y) == k * x + k * y
  {
  }

  lemma Scale(k: int, x: int, y: int)
    requires 0 <= k && x <= y
    ensures k * x <= k * y
  {
    Distribute(k, x, y - x);
  }

  lemma FourProducts(x: int, y: int)
    ensures 4 * (x * y) <= (x + y) * (x + y)
  {
    assert (x + y) * (x + y) == 4 * (x * y) + (x - y) * (x - y);
    assert (x - y) * (x - y) >= 0;
  }

  /** `p` is at most the bound that counts `u` and agreements `v` allow among `n` items. */
  ghost predicate Bounded(p: int, n: int, u: int, v: int) {
    4 * p <= n * u + 2 * (n * v)
  }

  lemma ProductBound(x: nat, y: nat, both: nat, n: nat)
    requires x <= n && y <= n && x + y <= n + both
    ensures Bounded(x * y, n, x + y, both)
  {
    var s := x + y;
    FourProducts(x, y);
    Scale(n, 0, both);
    if s <= n {
      Scale(s, s, n);
    } else {
      Distribute(s, n, s - n);
      Scale(s - n, s, 2 * n);
      Scale(n, s - n, both);
    }
  }

  lemma BoundsAdd(p1: int, p2: int, n: int, u1: int, u2: int, v1: int, v2: int)
    requires Bounded(p1, n, u1, v1) && Bounded(p2, n, u2, v2)
    ensures Bounded(p1 + p2, n, u1 + u2, v1 + v2)
  {
    Distribute(n, u1, u2);
    Distribute(n, v1, v2);
  }

  /** The chance term is largest when the annotators agree; per category `4xy <= n(x + y) + 2n * both`. */
  lemma {:induction false} ProductsBound(cats: seq<Label>, a: seq<Label>, b: seq<Label>)
    requires |a| == |b|
    ensures Bounded(SumProducts(cats, a, b), |a|, SumCounts(cats, a) + SumCounts(cats, b), SumBoth(cats, a, b))
  {
    if cats == [] {
    } else {
      var c, rest := cats[0], cats[1..];
      CountsOverlap(a, b, c);
      ProductBound(Count(a, c), Count(b, c), Both(a, b, c), |a|);
      ProductsBound(rest, a, b);
      BoundsAdd(Count(a, c) * Count(b, c), SumProducts(rest, a, b), |a|,
                Count(a, c) + Count(b, c), SumCounts(rest, a) + SumCounts(rest, b), Both(a, b, c), SumBoth(rest, a, b));
    }
  }

  /** If no category takes more than `m` of the first annotator's labels, the products stay below `m`
      times the second one's total. */
  lemma {:induction false} ProductsAtMost(cats: seq<Label>, a: seq<Label>, b: seq<Label>, m: nat)
    requires forall c | c in cats :: Count(a, c) <= m
    ensures SumProducts(cats, a, b) <= m * SumCounts(cats, b)
  {
    if cats != [] {
      var c, rest := cats[0], cats[1..];
      ProductsAtMost(rest, a, b, m);
      Scale(Count(b, c), Count(a, c), m);
      Distribute(m, Count(b, c), SumCounts(rest, b));
    }
  }

  // ----- the chance term as a single quotient

  /** `q` is the fraction `p / n^2`. */
  ghost predicate IsQuotient(q: real, n: nat, p: nat) {
    q * (n * n) as real == p as real
  }

  lemma ProductOfShares(x: nat, y: nat, n: nat)
    requires n > 0
    ensures IsQuotient((x as real / n as real) * (y as real / n as real), n, x * y)
  {
    var p, q, d := x as real / n as real, y as real / n as real, n as real;
    assert p * d == x as real && q * d == y as real;
    assert p * q * (d * d) == (p * d) * (q * d);
  }

  lemma QuotientsAdd(q1: real, q2: real, n: nat, p1: nat, p2: nat)
    requires IsQuotient(q1, n, p1) && IsQuotient(q2, n, p2)
    ensures IsQuotient(q1 + q2, n, p1 + p2)
  {
  }

  lemma {:induction false} ChanceIsQuotient(a: seq<Label>, b: seq<Label>, cats: seq<Label>)
    requires |a| == |b| > 0
    ensures IsQuotient(ChanceAgreement(a, b, cats), |a|, SumProducts(cats, a, b))
  {
    if cats == [] {
    } else {
      var n, x, y := |a|, Count(a, cats[0]), Count(b, cats[0]);
      ChanceIsQuotient(a, b, cats[1..]);
      ProductOfShares(x, y, n);
      QuotientsAdd((x as real / n as real) * (y as real / n as real), ChanceAgreement(a, b, cats[1..]), n,
                   x * y, SumProducts(cats[1..], a, b));
    }
  }

  lemma CompareByFactor(x: real, y: real, k: real)
    requires k > 0.0
    ensures x * k <= y * k ==> x <= y
    ensures x * k == y * k ==> x == y
  {
    if x > y {
      assert (x - y) * k > 0.0;
    }
    if y > x {
      assert (y - x) * k > 0.0;
    }
  }

  lemma {:induction false} AgreementsOfEqual(a: seq<Label>, b: seq<Label>)
    requires |a| == |b|
    ensures Agreements(a, b) <= |a|
    ensures Agreements(a, b) == |a| <==> a == b
  {
    if a != [] {
      AgreementsOfEqual(a[1..], b[1..]);
      assert a == [a[0]] + a[1..] && b == [b[0]] + b[1..];
    }
  }

  lemma ObservedAsFraction(n: nat, m: nat, po: real)
    requires n > 0 && m <= n && po == m as real / n as real
    ensures po <= 1.0 && (po == 1.0 <==> m == n)
    ensures IsQuotient(po, n, m * n)
  {
    var k := n as real;
    assert po * k == m as real;
    CompareByFactor(po, 1.0, k);
    assert po * (k * k) == (po * k) * k;
  }

  lemma CompareQuotients(q1: real, q2: real, n: nat, p1: nat, p2: nat)
    requires n > 0 && IsQuotient(q1, n, p1) && IsQuotient(q2, n, p2)
    ensures p1 <= p2 ==> q1 <= q2
    ensures q1 == q2 <==> p1 == p2
  {
    CompareByFactor(q1, q2, (n * n) as real);
  }

  /** What the integer bounds say about the observed and the chance agreement. */
  lemma AgreementBounds(n: nat, m: nat, p: nat, po: real, pe: real)
    requires n > 0 && m <= n && p <= n * n && Bounded(p, n, 2 * n, m)
    requires po == m as real / n as real && IsQuotient(pe, n, p)
    ensures po <= 1.0 && pe <= 1.0 && 2.0 * pe <= 1.0 + po
    ensures po == 1.0 <==> m == n
    ensures pe == 1.0 <==> p == n * n
  {
    ObservedAsFraction(n, m, po);
    assert IsQuotient(1.0, n, n * n);
    CompareQuotients(pe, 1.0, n, p, n * n);
    QuotientsAdd(pe, pe, n, p, p);
    QuotientsAdd(1.0, po, n, n * n, m * n);
    CompareQuotients(pe + pe, 1.0 + po, n, p + p, n * n + m * n);
  }

  lemma ZeroFactor(x: real, k: real)
    requires k > 0.0 && x * k == 0.0
    ensures x == 0.0
  {
  }

  lemma QuotientInUnit(k: real, x: real, d: real)
    requires d > 0.0 && k * d == x && -d <= x <= d
    ensures -1.0 <= k <= 1.0
    ensures k == 1.0 <==> x == d
  {
    CompareByFactor(k, 1.0, d);
    CompareByFactor(-1.0, k, d);
    if x == d {
      assert (k - 1.0) * d == 0.0;
      ZeroFactor(k - 1.0, d);
    }
  }

  lemma RatioBounds(po: real, pe: real)
    requires po <= 1.0 && pe < 1.0 && 2.0 * pe <= 1.0 + po
    ensures -1.0 <= (po - pe) / (1.0 - pe) <= 1.0
    ensures (po - pe) / (1.0 - pe) == 1.0 <==> po == 1.0
  {
    QuotientInUnit((po - pe) / (1.0 - pe), po - pe, 1.0 - pe);
  }

  lemma AgreementOf(a: seq<Label>, b: seq<Label>, cats: seq<Label>)
    requires |a| == |b| > 0 && Categories(cats, a, b)
    ensures var po, pe := Agreements(a, b) as real / |a| as real, ChanceAgreement(a, b, cats);
            && po <= 1.0 && pe <= 1.0 && 2.0 * pe <= 1.0 + po
            && (po == 1.0 <==> a == b)
            && (pe == 1.0 <==> SumProducts(cats, a, b) == |a| * |a|)
  {
    var n := |a|;
    CountsAddUp(cats, a);
    CountsAddUp(cats, b);
    AgreementsAddUp(cats, a, b);
    ProductsBound(cats, a, b);
    forall c | c in cats
      ensures Count(a, c) <= n
    {
      CountsOverlap(a, b, c);
    }
    ProductsAtMost(cats, a, b, n);
    ChanceIsQuotient(a, b, cats);
    AgreementsOfEqual(a, b);
    AgreementBounds(n, Agreements(a, b), SumProducts(cats, a, b),
                    Agreements(a, b) as real / n as real, ChanceAgreement(a, b, cats));
  }

  /** Kappa lies between -1 and 1, and is 1 exactly when the annotators agree everywhere. */
  lemma KappaBounds(a: seq<Label>, b: seq<Label>, cats: seq<Label>)
    requires |a| == |b| > 0 && Categories(cats, a, b)
    ensures -1.0 <= CohensKappa(a, b, cats) <= 1.0
    ensures CohensKappa(a, b, cats) == 1.0 <==> a == b
  {
    AgreementOf(a, b, cats);
    var po, pe := Agreements(a, b) as real / |a| as real, ChanceAgreement(a, b, cats);
    if pe < 1.0 {
      RatioBounds(po, pe);
    }
  }

  /** Both annotators gave every item the same single label. */
  ghost predicate OneLabel(a: seq<Label>, b: seq<Label>) {
    a == b && forall i, j | 0 <= i < |a| && 0 <= j < |a| :: a[i] == a[j]
  }

  lemma {:induction false} CountAll(a: seq<Label>, c: Label)
    ensures Count(a, c) <= |a|
    ensures Count(a, c) == |a| <==> forall i | 0 <= i < |a| :: a[i] == c
  {
    if a != [] {
      CountAll(a[1..], c);
      assert a == [a[0]] + a[1..];
    }
  }

  lemma SomeOther(cats: seq<Label>, c: Label)
    requires |cats| > 1 && cats[0] != cats[1]
    ensures exists k | 0 <= k < |cats| :: cats[k] != c
  {
    if cats[0] == c {
      assert cats[1] != c;
    }
  }

  lemma OneLabelIsCertain(a: seq<Label>, b: seq<Label>, cats: seq<Label>)
    requires |a| == |b| > 0 && Categories(cats, a, b) && OneLabel(a, b)
    ensures SumProducts(cats, a, b) == |a| * |a|
  {
    var c := a[0];
    assert c in cats;
    forall k | 0 <= k < |cats|
      ensures cats[k] == c
    {
      assert cats[k] in cats;
      assert cats[k] in a;
    }
    if |cats| > 1 {
      SomeOther(cats, c);
    }
    CountAll(a, c);
    assert SumProducts(cats[1..], a, b) == 0;
  }

  lemma NoLabelTakesAll(a: seq<Label>, c: Label)
    requires !OneLabel(a, a)
    ensures Count(a, c) <= |a| - 1
  {
    CountAll(a, c);
  }

  lemma BelowSquare(n: nat)
    requires n > 0
    ensures (n - 1) * n < n * n
  {
    Distribute(n, n, -1);
  }

  lemma SeveralLabelsAreUncertain(a: seq<Label>, cats: seq<Label>)
    requires a != [] && Categories(cats, a, a) && !OneLabel(a, a)
    ensures SumProducts(cats, a, a) < |a| * |a|
  {
    var n := |a|;
    forall c | c in cats
      ensures Count(a, c) <= n - 1
    {
      NoLabelTakesAll(a, c);
    }
    CountsAddUp(cats, a);
    ProductsAtMost(cats, a, a, n - 1);
    BelowSquare(n);
  }

  /** Division by zero is avoided on exactly one kind of input, and there the agreement is perfect. */
  lemma ShortcutIffOneLabel(a: seq<Label>, b: seq<Label>, cats: seq<Label>)
    requires |a| == |b| > 0 && Categories(cats, a, b)
    ensures 1.0 - ChanceAgreement(a, b, cats) == 0.0 <==> OneLabel(a, b)
  {
    AgreementOf(a, b, cats);
    if OneLabel(a, b) {
      OneLabelIsCertain(a, b, cats);
    } else if a == b {
      SeveralLabelsAreUncertain(a, cats);
    }
  }

  // ----- what the number is

  ghost function MatchingPairs(a: seq<Label>, b: seq<Label>): set<(nat, nat)> {
    set i: nat, j: nat | i < |a| && j < |b| && a[i] == b[j] :: (i, j)
  }

  ghost function PairsAt(b: seq<Label>, i: nat, x: Label): set<(nat, nat)> {
    set j: nat | j < |b| && x == b[j] :: (i, j)
  }

  lemma {:induction false} PairsAtCount(b: seq<Label>, i: nat, x: Label)
    ensures |PairsAt(b, i, x)| == Count(b, x)
  {
    if b == [] {
      assert PairsAt(b, i, x) == {};
    } else {
      var front, last := b[..|b| - 1], b[|b| - 1];
      PairsAtCount(front, i, x);
      CountSnoc(front, last, x);
      PairsAtSnoc(front, last, i, x);
      assert b == front + [last];
    }
  }

  lemma PairsAtSnoc(b: seq<Label>, last: Label, i: nat, x: Label)
    ensures |PairsAt(b + [last], i, x)| == |PairsAt(b, i, x)| + if last == x then 1 else 0
  {
    assert PairsAt(b + [last], i, x) == PairsAt(b, i, x) + if x == last then {(i, |b|)} else {};
  }

  lemma {:induction false} CountSnoc(s: seq<Label>, last: Label, c: Label)
    ensures Count(s + [last], c) == Count(s, c) + if last == c then 1 else 0
  {
    if s == [] {
      assert s + [last] == [last];
    } else {
      CountSnoc(s[1..], last, c);
      assert (s + [last])[1..] == s[1..] + [last];
    }
  }

  lemma {:induction false} SumProductsSnoc(cats: seq<Label>, a: seq<Label>, last: Label, b: seq<Label>)
    ensures SumProducts(cats, a + [last], b) == SumProducts(cats, a, b) + Count(cats, last) * Count(b, last)
  {
    if cats != [] {
      var c, rest := cats[0], cats[1..];
      SumProductsSnoc(rest, a, last, b);
      CountSnoc(a, last, c);
      OneMoreTimes(Count(a, c), Count(b, c), last == c);
      OneMoreTimes(Count(rest, last), Count(b, last), last == c);
    }
  }

  lemma OneMoreTimes(x: nat, y: nat, more: bool)
    ensures (x + if more then 1 else 0) * y == x * y + if more then y else 0
  {
    if more {
      Distribute(y, x, 1);
    }
  }

  /** The chance term counts the pairs of items, one from each list, that carry the same label. */
  lemma {:induction false} ProductsArePairs(cats: seq<Label>, a: seq<Label>, b: seq<Label>)
    requires forall i, j | 0 <= i < j < |cats| :: cats[i] != cats[j]
    requires forall x | x in a :: x in cats
    ensures SumProducts(cats, a, b) == |MatchingPairs(a, b)|
  {
    if a == [] {
      assert MatchingPairs(a, b) == {};
      NoProducts(cats, b);
    } else {
      var front, last := a[..|a| - 1], a[|a| - 1];
      assert a == front + [last];
      ProductsArePairs(cats, front, b);
      ProductsGrow(cats, front, last, b);
      MatchingPairsSnoc(front, last, b);
    }
  }

  lemma ProductsGrow(cats: seq<Label>, a: seq<Label>, last: Label, b: seq<Label>)
    requires forall i, j | 0 <= i < j < |cats| :: cats[i] != cats[j]
    requires last in cats
    ensures SumProducts(cats, a + [last], b) == SumProducts(cats, a, b) + Count(b, last)
  {
    SumProductsSnoc(cats, a, last, b);
    CountOfDistinct(cats, last);
    OneMoreTimes(0, Count(b, last), true);
  }

  lemma MatchingPairsSnoc(a: seq<Label>, last: Label, b: seq<Label>)
    ensures |MatchingPairs(a + [last], b)| == |MatchingPairs(a, b)| + Count(b, last)
  {
    PairsAtCount(b, |a|, last);
    assert MatchingPairs(a + [last], b) == MatchingPairs(a, b) + PairsAt(b, |a|, last);
    assert MatchingPairs(a, b) !! PairsAt(b, |a|, last);
  }

  lemma {:induction false} NoProducts(cats: seq<Label>, b: seq<Label>)
    ensures SumProducts(cats, [], b) == 0
  {
    if cats != [] {
      NoProducts(cats[1..], b);
    }
  }

  ghost function AgreeingItems(a: seq<Label>, b: seq<Label>): set<nat>
    requires |a| == |b|
  {
    set k: nat | k < |a| && a[k] == b[k]
  }

  lemma AgreeingItemsSnoc(a: seq<Label>, b: seq<Label>, x: Label, y: Label)
    requires |a| == |b|
    ensures |AgreeingItems(a + [x], b + [y])| == |AgreeingItems(a, b)| + if x == y then 1 else 0
  {
    assert AgreeingItems(a + [x], b + [y]) == AgreeingItems(a, b) + if x == y then {|a|} else {};
  }

  lemma {:induction false} AgreementsAreCardinality(a: seq<Label>, b: seq<Label>)
    requires |a| == |b|
    ensures Agreements(a, b) == |AgreeingItems(a, b)|
  {
    if a == [] {
      assert AgreeingItems(a, b) == {};
    } else {
      var n := |a| - 1;
      AgreementsAreCardinality(a[..n], b[..n]);
      AgreementsSnoc(a[..n], b[..n], a[n], b[n]);
      AgreeingItemsSnoc(a[..n], b[..n], a[n], b[n]);
      assert a == a[..n] + [a[n]] && b == b[..n] + [b[n]];
    }
  }

  lemma {:induction false} AgreementsSnoc(a: seq<Label>, b: seq<Label>, x: Label, y: Label)
    requires |a| == |b|
    ensures Agreements(a + [x], b + [y]) == Agreements(a, b) + if x == y then 1 else 0
  {
    if a == [] {
      assert a + [x] == [x] && b + [y] == [y];
    } else {
      AgreementsSnoc(a[1..], b[1..], x, y);
      assert (a + [x])[1..] == a[1..] + [x] && (b + [y])[1..] == b[1..] + [y];
    }
  }

  /** `k` solves the defining equation of kappa, cleared of its denominators: `m` agreements among `n`
      items, `p` matching pairs. */
  ghost predicate SolvesKappa(k: real, n: nat, m: nat, p: nat) {
    k * (n * n - p) as real == (n * m - p) as real
  }

  lemma KappaSolves(k: real, po: real, pe: real, n: nat, m: nat, p: nat)
    requires pe != 1.0 && k == (po - pe) / (1.0 - pe)
    requires IsQuotient(po, n, m * n) && IsQuotient(pe, n, p)
    ensures SolvesKappa(k, n, m, p)
  {
    var d := (n * n) as real;
    assert k * (1.0 - pe) == po - pe;
    assert (1.0 - pe) * d == (n * n - p) as real;
    assert (po - pe) * d == (n * m - p) as real;
    assert k * ((1.0 - pe) * d) == (k * (1.0 - pe)) * d;
  }

  /** Kappa is pinned by two counts: the positions at which the annotators agree, and the pairs of positions
      whose labels match. Lists of different or zero length score zero. */
  lemma KappaByCounting(a: seq<Label>, b: seq<Label>, cats: seq<Label>)
    requires Categories(cats, a, b)
    ensures |a| != |b| || |a| == 0 ==> CohensKappa(a, b, cats) == 0.0
    ensures |a| == |b| > 0 ==>
              SolvesKappa(CohensKappa(a, b, cats), |a|, |AgreeingItems(a, b)|, |MatchingPairs(a, b)|)
  {
    if |a| == |b| && |a| > 0 {
      AgreementOf(a, b, cats);
      AgreementsAreCardinality(a, b);
      ProductsArePairs(cats, a, b);
      ChanceIsQuotient(a, b, cats);
      var n, m, p := |a|, Agreements(a, b), SumProducts(cats, a, b);
      var po, pe := m as real / n as real, ChanceAgreement(a, b, cats);
      AgreementsOfEqual(a, b);
      ObservedAsFraction(n, m, po);
      if pe == 1.0 {
        assert m == n && p == n * n;
      } else {
        KappaSolves(CohensKappa(a, b, cats), po, pe, n, m, p);
      }
    }
  }
}
