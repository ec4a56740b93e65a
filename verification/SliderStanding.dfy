/** What the ranking of slider guesses means in terms of which scores are lower
    (client/captcha_v2_slider.go): ranks are counts of candidates ahead, and the order of
    any two fully scored candidates is decided by the candidates between them. */
module SliderStanding {
  import opened SliderRanking

  /** One candidate's score is lower than another's. */
  function Lower(scores: seq<int>): Order { (i: nat, j: nat) => i < |scores| && j < |scores| && scores[i] < scores[j] }

  function LowerReal(scores: seq<real>): Order {
    (i: nat, j: nat) => i < |scores| && j < |scores| && scores[i] < scores[j]
  }

  /** Those of `among` with a lower score than `x`, or the same and a lower number. */
  ghost function Ahead(lower: Order, among: set<nat>, x: nat): set<nat> {
    set z | z in among && (lower(z, x) || (!lower(x, z) && z < x))
  }

  /** Those from `x` on that are still ahead of `y`. */
  ghost function Between(lower: Order, among: set<nat>, x: nat, y: nat): set<nat> {
    set z | z in among && (lower(x, z) || (!lower(z, x) && x <= z)) && (lower(z, y) || (!lower(y, z) && z < y))
  }

  ghost function Numbers(n: nat): (s: set<nat>)
    ensures forall x: nat :: x in s <==> x < n
  {
    RangeHolds(n);
    Members(Range(n))
  }

  lemma RangeHolds(n: nat)
    ensures forall x: nat :: x in Range(n) <==> x < n
  {
    forall x: nat
      ensures x in Range(n) <==> x < n
    {
      if x < n {
        assert Range(n)[x] == x;
      }
    }
  }

  ghost function Members(xs: seq<nat>): set<nat> { set x | x in xs }

  /** The candidates that fewer than twelve are ahead of. */
  ghost function Twelve(luma: seq<int>): set<nat> {
    set x: nat | x < |luma| && |Ahead(Lower(luma), Numbers(|luma|), x)| < 12
  }

  /** How many candidates are ahead, summed up over the three scores for the twelve. */
  ghost function Places(all: Scores, x: nat): nat {
    var best := Twelve(all.luma);
    |Ahead(Lower(all.luma), Numbers(|all.luma|), x)| +
      if x in best then |Ahead(Lower(all.rgb), best, x)| + |Ahead(LowerReal(all.text), best, x)| else |all.luma|
  }

  // ---------- ranks are counts ----------

  ghost function Before(less: Order, among: set<nat>, x: nat): set<nat> { set z | z in among && less(z, x) }

  lemma OneMore(less: Order, among: set<nat>, last: nat, x: nat)
    requires last !in among
    ensures |Before(less, among + {last}, x)| == |Before(less, among, x)| + if less(last, x) then 1 else 0
  {
    var before := Before(less, among, x);
    assert Before(less, among + {last}, x) == if less(last, x) then before + {last} else before;
  }

  lemma MembersJoined(xs: seq<nat>, y: nat)
    ensures Members(xs + [y]) == Members(xs) + {y}
  {
  }

  lemma {:induction false} RankCounts(less: Order, xs: seq<nat>, x: nat)
    requires Distinct(xs)
    ensures Rank(less, xs, x) == |Before(less, Members(xs), x)|
  {
    if xs != [] {
      var n := |xs| - 1;
      var init, last := xs[..n], xs[n];
      assert xs == init + [last];
      RankCounts(less, init, x);
      MembersJoined(init, last);
      OneMore(less, Members(init), last, x);
    }
  }

  lemma AheadByInt(scores: seq<int>, among: set<nat>, x: nat)
    requires x < |scores| && forall z :: z in among ==> z < |scores|
    ensures Ahead(Lower(scores), among, x) == Before(ByInt(scores), among, x)
  {
  }

  lemma AheadByReal(scores: seq<real>, among: set<nat>, x: nat)
    requires x < |scores| && forall z :: z in among ==> z < |scores|
    ensures Ahead(LowerReal(scores), among, x) == Before(ByReal(scores), among, x)
  {
  }

  lemma LumaPlaces(luma: seq<int>, x: nat)
    requires x < |luma|
    ensures Rank(ByInt(luma), Range(|luma|), x) == |Ahead(Lower(luma), Numbers(|luma|), x)|
  {
    RankCounts(ByInt(luma), Range(|luma|), x);
    AheadByInt(luma, Numbers(|luma|), x);
  }

  lemma PositionOf(luma: seq<int>, x: nat) returns (i: nat)
    requires x < |luma|
    ensures i < |LumaOrder(luma)| == |luma| && LumaOrder(luma)[i] == x
    ensures |Ahead(Lower(luma), Numbers(|luma|), x)| == i
  {
    LumaOrdered(luma);
    assert Range(|luma|)[x] in multiset(LumaOrder(luma));
    i :| 0 <= i < |LumaOrder(luma)| && LumaOrder(luma)[i] == x;
    LumaRank(luma, i);
    LumaPlaces(luma, x);
  }

  lemma TopWithin(luma: seq<int>, x: nat)
    requires x in Top(luma)
    ensures x < |luma|
  {
    LumaOrdered(luma);
    assert x in multiset(LumaOrder(luma));
  }

  lemma TopByPosition(luma: seq<int>, x: nat)
    requires x < |luma|
    ensures x in Top(luma) <==> |Ahead(Lower(luma), Numbers(|luma|), x)| < 12
  {
    var i := PositionOf(luma, x);
    LumaOrdered(luma);
    if x in Top(luma) {
      var j :| 0 <= j < |Top(luma)| && Top(luma)[j] == x;
      assert LumaOrder(luma)[j] == x;
    }
    if i < 12 {
      assert Top(luma)[i] == x;
    }
  }

  /** The candidates chosen for the second stage are those twelve. */
  lemma TwelveAreTop(luma: seq<int>)
    ensures Twelve(luma) == Members(Top(luma))
  {
    LumaOrdered(luma);
    forall x: nat
      ensures x in Twelve(luma) <==> x in Top(luma)
    {
      if x in Top(luma) {
        TopWithin(luma, x);
      }
      if x < |luma| {
        TopByPosition(luma, x);
      }
    }
  }

  lemma {:induction false} MembersCount(xs: seq<nat>)
    requires Distinct(xs)
    ensures |Members(xs)| == |xs|
  {
    if xs != [] {
      var n := |xs| - 1;
      MembersCount(xs[..n]);
      assert xs == xs[..n] + [xs[n]];
      assert Members(xs) == Members(xs[..n]) + {xs[n]};
    }
  }

  /** There are twelve of them, or all, and no other has a lower seam score. */
  lemma LowestTwelve(luma: seq<int>, x: nat, y: nat)
    requires x in Twelve(luma) && y < |luma| && y !in Twelve(luma)
    ensures |Twelve(luma)| == 12 && (luma[x] < luma[y] || (luma[x] == luma[y] && x < y))
  {
    TwelveAreTop(luma);
    LumaOrdered(luma);
    MembersCount(Top(luma));
    var i := PositionOf(luma, x);
    var j := PositionOf(luma, y);
    assert ByInt(luma)(LumaOrder(luma)[i], LumaOrder(luma)[j]);
  }

  lemma AllWhenFew(luma: seq<int>)
    requires |luma| <= 12
    ensures Twelve(luma) == Numbers(|luma|)
  {
    forall x: nat | x < |luma|
      ensures x in Twelve(luma)
    {
      var i := PositionOf(luma, x);
    }
  }

  /** Scores that are those of `all` where they count. */
  ghost predicate ScoredWhereBest(sc: Scores, all: Scores) {
    && sc.Valid() && all.Valid() && sc.luma == all.luma
    && forall x :: x in Twelve(all.luma) ==> sc.rgb[x] == all.rgb[x] && sc.text[x] == all.text[x]
  }

  lemma RgbPlaces(sc: Scores, all: Scores, top: seq<nat>, best: set<nat>, x: nat)
    requires ScoredWhereBest(sc, all) && Distinct(top) && best == Twelve(all.luma) == Members(top) && x in best
    ensures Rank(ByInt(sc.rgb), top, x) == |Ahead(Lower(all.rgb), best, x)|
  {
    RankCounts(ByInt(sc.rgb), top, x);
    AheadByInt(sc.rgb, best, x);
    assert Ahead(Lower(sc.rgb), best, x) == Ahead(Lower(all.rgb), best, x);
  }

  lemma TextPlaces(sc: Scores, all: Scores, top: seq<nat>, best: set<nat>, x: nat)
    requires ScoredWhereBest(sc, all) && Distinct(top) && best == Twelve(all.luma) == Members(top) && x in best
    ensures Rank(ByReal(sc.text), top, x) == |Ahead(LowerReal(all.text), best, x)|
  {
    RankCounts(ByReal(sc.text), top, x);
    AheadByReal(sc.text, best, x);
    assert Ahead(LowerReal(sc.text), best, x) == Ahead(LowerReal(all.text), best, x);
  }

  lemma ConsensusCounts(sc: Scores, all: Scores, x: nat)
    requires ScoredWhereBest(sc, all) && x < |all.luma|
    ensures Consensus(sc, x) == Places(all, x)
  {
    LumaPlaces(all.luma, x);
    TwelveAreTop(all.luma);
    if x in Twelve(all.luma) {
      LumaOrdered(all.luma);
      RgbPlaces(sc, all, Top(all.luma), Twelve(all.luma), x);
      TextPlaces(sc, all, Top(all.luma), Twelve(all.luma), x);
    }
  }

  // ---------- which of two stands first ----------

  /** By how many candidates `x` is ahead of `y` in the three scores. */
  ghost function Gained(all: Scores, x: nat, y: nat): nat {
    var best := Twelve(all.luma);
    |Between(Lower(all.luma), Numbers(|all.luma|), x, y)| + |Between(Lower(all.rgb), best, x, y)|
      + |Between(LowerReal(all.text), best, x, y)|
  }

  /** Two sets are as far apart in size as what each has alone. */
  lemma SetsApart(a: set<nat>, b: set<nat>)
    ensures |b| - |a| == |b - a| - |a - b|
  {
    assert a == a * b + (a - b) && b == a * b + (b - a);
  }

  lemma CountsApart(lower: Order, among: set<nat>, x: nat, y: nat)
    requires forall i: nat, j: nat :: lower(i, j) ==> !lower(j, i)
    ensures |Ahead(lower, among, y)| - |Ahead(lower, among, x)|
         == |Between(lower, among, x, y)| - |Between(lower, among, y, x)|
  {
    var a, b := Ahead(lower, among, x), Ahead(lower, among, y);
    assert Between(lower, among, x, y) == b - a && Between(lower, among, y, x) == a - b;
    SetsApart(a, b);
  }

  lemma PlacesApart(all: Scores, x: nat, y: nat)
    requires x in Twelve(all.luma) && y in Twelve(all.luma)
    ensures Places(all, y) - Places(all, x) == Gained(all, x, y) - Gained(all, y, x)
  {
    var best := Twelve(all.luma);
    CountsApart(Lower(all.luma), Numbers(|all.luma|), x, y);
    CountsApart(Lower(all.rgb), best, x, y);
    CountsApart(LowerReal(all.text), best, x, y);
  }

  /** Nobody stands between a score and one that is no higher. */
  lemma NoneBetween(scores: seq<int>, among: set<nat>, x: nat, y: nat)
    requires x < |scores| && y < |scores| && forall z :: z in among ==> z < |scores|
    requires scores[x] < scores[y] || (scores[x] == scores[y] && x < y)
    ensures Between(Lower(scores), among, y, x) == {}
  {
  }

  lemma NoneBetweenReals(scores: seq<real>, among: set<nat>, x: nat, y: nat)
    requires x < |scores| && y < |scores| && forall z :: z in among ==> z < |scores|
    requires scores[x] < scores[y] || (scores[x] == scores[y] && x < y)
    ensures Between(LowerReal(scores), among, y, x) == {}
  {
  }

  predicate NoWorse(all: Scores, x: nat, y: nat)
    requires all.Valid() && x < |all.luma| && y < |all.luma|
  {
    all.luma[x] <= all.luma[y] && all.rgb[x] <= all.rgb[y] && all.text[x] <= all.text[y]
  }

  predicate BetterInAll(all: Scores, x: nat, y: nat)
    requires all.Valid() && x < |all.luma| && y < |all.luma|
  {
    all.luma[x] < all.luma[y] && all.rgb[x] < all.rgb[y] && all.text[x] < all.text[y]
  }

  lemma GainsAll(all: Scores, x: nat, y: nat)
    requires all.Valid() && x in Twelve(all.luma) && y in Twelve(all.luma)
    requires BetterInAll(all, x, y) || (NoWorse(all, x, y) && x < y)
    ensures Gained(all, x, y) > 0 == Gained(all, y, x)
  {
    var best := Twelve(all.luma);
    NoneBetween(all.luma, Numbers(|all.luma|), x, y);
    NoneBetween(all.rgb, best, x, y);
    NoneBetweenReals(all.text, best, x, y);
    assert x in Between(Lower(all.luma), Numbers(|all.luma|), x, y);
  }

  lemma TwoTied(all: Scores)
    requires all == Scores([10, 10], [20, 10], [0.0, 0.0])
    ensures Twelve(all.luma) == {0, 1} && Gained(all, 0, 1) == 2 && Gained(all, 1, 0) == 1
  {
    AllWhenFew(all.luma);
    var best := Twelve(all.luma);
    assert best == {0, 1} == Numbers(2);
    NoneBetween(all.luma, best, 0, 1);
    NoneBetween(all.rgb, best, 1, 0);
    NoneBetweenReals(all.text, best, 0, 1);
    assert Between(Lower(all.luma), best, 0, 1) == {0} == Between(LowerReal(all.text), best, 0, 1);
    assert Between(Lower(all.rgb), best, 1, 0) == {1};
  }
}
