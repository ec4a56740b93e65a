/** The ranking of slider guesses in client/captcha_v2_slider.go: all candidates are
    scored along their seams, the best twelve by two more measures, and all are put
    in the order of their summed ranks. Candidates are numbered from 0 here. */
module SliderRanking {
  const STAGE2 := 12

  // ---------- sorting by a strict order ----------

  type Order = (nat, nat) -> bool

  predicate Decided(less: Order, i: nat, j: nat) { i == j || less(i, j) || less(j, i) }

  ghost predicate StrictOrder(less: Order) {
    && (forall i: nat :: !less(i, i))
    && (forall i: nat, j: nat :: Decided(less, i, j))
    && (forall i: nat, j: nat, k: nat :: less(i, j) && less(j, k) ==> less(i, k))
  }

  predicate Increasing(less: Order, xs: seq<nat>) { forall i, j :: 0 <= i < j < |xs| ==> less(xs[i], xs[j]) }

  predicate Distinct(xs: seq<nat>) { forall i, j :: 0 <= i < j < |xs| ==> xs[i] != xs[j] }

  /** Where `x` goes among the first `k` of an increasing list. */
  function Place(less: Order, xs: seq<nat>, x: nat, k: nat): (p: nat)
    requires k <= |xs|
    ensures p <= k
    ensures p > 0 ==> less(xs[p - 1], x)
    ensures forall i :: p <= i < k ==> !less(xs[i], x)
  {
    if k == 0 || less(xs[k - 1], x) then k else Place(less, xs, x, k - 1)
  }

  function Insert(less: Order, xs: seq<nat>, x: nat): seq<nat> {
    var p := Place(less, xs, x, |xs|);
    xs[..p] + [x] + xs[p..]
  }

  /** What a library sort by a strict order yields. */
  function Sort(less: Order, xs: seq<nat>): seq<nat> {
    if xs == [] then [] else Insert(less, Sort(less, xs[..|xs| - 1]), xs[|xs| - 1])
  }

  lemma InsertSame(less: Order, xs: seq<nat>, x: nat)
    ensures multiset(Insert(less, xs, x)) == multiset(xs) + multiset{x}
  {
    var p := Place(less, xs, x, |xs|);
    assert xs == xs[..p] + xs[p..];
  }

  lemma {:induction false} SortSame(less: Order, xs: seq<nat>)
    ensures multiset(Sort(less, xs)) == multiset(xs)
  {
    if xs != [] {
      var init, last := xs[..|xs| - 1], xs[|xs| - 1];
      assert xs == init + [last];
      SortSame(less, init);
      InsertSame(less, Sort(less, init), last);
    }
  }

  lemma InsertIncreasing(less: Order, xs: seq<nat>, x: nat)
    requires StrictOrder(less) && Increasing(less, xs) && x !in xs
    ensures Increasing(less, Insert(less, xs, x))
  {
    var p, ys := Place(less, xs, x, |xs|), Insert(less, xs, x);
    forall i | 0 <= i < |xs|
      ensures if i < p then less(xs[i], x) else less(x, xs[i])
    {
      assert Decided(less, xs[i], x);
    }
  }

  lemma {:induction false} SortIncreasing(less: Order, xs: seq<nat>)
    requires StrictOrder(less) && Distinct(xs)
    ensures Increasing(less, Sort(less, xs))
  {
    if xs != [] {
      var init, last := xs[..|xs| - 1], xs[|xs| - 1];
      SortIncreasing(less, init);
      SortSame(less, init);
      assert last !in multiset(init);
      InsertIncreasing(less, Sort(less, init), last);
    }
  }

  lemma IncreasingDistinct(less: Order, xs: seq<nat>)
    requires StrictOrder(less) && Increasing(less, xs)
    ensures Distinct(xs)
  {
    forall i, j | 0 <= i < j < |xs|
      ensures xs[i] != xs[j]
    {
      assert less(xs[i], xs[j]);
    }
  }

  function Cut(s: seq<nat>, i: nat): (t: seq<nat>)
    requires i < |s|
    ensures |t| == |s| - 1
  {
    s[..i] + s[i + 1..]
  }

  lemma CutOne(s: seq<nat>, i: nat)
    requires i < |s|
    ensures multiset(s) == multiset(Cut(s, i)) + multiset{s[i]}
  {
    assert s == s[..i] + [s[i]] + s[i + 1..];
  }

  lemma SameWithout(a: multiset<nat>, b: multiset<nat>, x: nat)
    requires a + multiset{x} == b + multiset{x}
    ensures a == b
  {
    assert a == (a + multiset{x}) - multiset{x};
    assert b == (b + multiset{x}) - multiset{x};
  }

  lemma Find(xs: seq<nat>, ys: seq<nat>, k: nat) returns (i: nat)
    requires multiset(xs) == multiset(ys) && k < |xs|
    ensures i < |ys| && ys[i] == xs[k]
  {
    assert xs[k] in multiset(ys);
    i :| i < |ys| && ys[i] == xs[k];
  }

  lemma LastSame(less: Order, xs: seq<nat>, ys: seq<nat>, n: nat)
    requires StrictOrder(less) && Increasing(less, xs) && Increasing(less, ys)
    requires multiset(xs) == multiset(ys) && |xs| == |ys| == n + 1
    ensures xs[n] == ys[n]
  {
    var i := Find(xs, ys, n);
    var j := Find(ys, xs, n);
  }

  lemma SameLength(xs: seq<nat>, ys: seq<nat>)
    requires multiset(xs) == multiset(ys)
    ensures |xs| == |ys|
  {
    assert |multiset(xs)| == |multiset(ys)|;
  }

  /** There is only one increasing list of given elements, so the order in which they
      were collected leaves no trace. */
  lemma {:induction false} SortedUnique(less: Order, xs: seq<nat>, ys: seq<nat>)
    requires StrictOrder(less) && Increasing(less, xs) && Increasing(less, ys)
    requires multiset(xs) == multiset(ys)
    ensures xs == ys
  {
    SameLength(xs, ys);
    if xs != [] {
      var n := |xs| - 1;
      LastSame(less, xs, ys, n);
      CutOne(xs, n);
      CutOne(ys, n);
      SameWithout(multiset(Cut(xs, n)), multiset(Cut(ys, n)), xs[n]);
      SortedUnique(less, Cut(xs, n), Cut(ys, n));
      assert xs == Cut(xs, n) + [xs[n]] && ys == Cut(ys, n) + [ys[n]];
    }
  }

  // ---------- ranks ----------

  /** How many of `xs` come before `x`. */
  function Rank(less: Order, xs: seq<nat>, x: nat): (r: nat)
    ensures r <= |xs|
  {
    if xs == [] then 0
    else Rank(less, xs[..|xs| - 1], x) + if less(xs[|xs| - 1], x) then 1 else 0
  }

  lemma RankJoined(less: Order, xs: seq<nat>, y: nat, x: nat)
    ensures Rank(less, xs + [y], x) == Rank(less, xs, x) + if less(y, x) then 1 else 0
  {
    assert (xs + [y])[..|xs|] == xs;
  }

  /** The rank of an element of an increasing list is its position. */
  lemma {:induction false} RankIsPosition(less: Order, xs: seq<nat>, i: nat, n: nat)
    requires StrictOrder(less) && Increasing(less, xs) && i < |xs| && n <= |xs|
    ensures Rank(less, xs[..n], xs[i]) == if n < i then n else i
  {
    if n > 0 {
      RankIsPosition(less, xs, i, n - 1);
      assert xs[..n] == xs[..n - 1] + [xs[n - 1]];
      RankJoined(less, xs[..n - 1], xs[n - 1], xs[i]);
      if i < n - 1 {
        assert less(xs[i], xs[n - 1]);
      }
    }
  }

  lemma {:induction false} RankSplit(less: Order, a: seq<nat>, b: seq<nat>, x: nat)
    ensures Rank(less, a + b, x) == Rank(less, a, x) + Rank(less, b, x)
  {
    if b == [] {
      assert a + b == a;
    } else {
      var n := |b| - 1;
      RankSplit(less, a, b[..n], x);
      assert a + b == (a + b[..n]) + [b[n]];
      RankJoined(less, a + b[..n], b[n], x);
    }
  }

  lemma RankCut(less: Order, ys: seq<nat>, i: nat, x: nat)
    requires i < |ys|
    ensures Rank(less, ys, x) == Rank(less, Cut(ys, i), x) + if less(ys[i], x) then 1 else 0
  {
    assert ys == ys[..i] + [ys[i]] + ys[i + 1..];
    RankSplit(less, ys[..i] + [ys[i]], ys[i + 1..], x);
    RankJoined(less, ys[..i], ys[i], x);
    RankSplit(less, ys[..i], ys[i + 1..], x);
  }

  lemma {:induction false} RankPermuted(less: Order, xs: seq<nat>, ys: seq<nat>, x: nat)
    requires multiset(xs) == multiset(ys)
    ensures Rank(less, xs, x) == Rank(less, ys, x)
  {
    SameLength(xs, ys);
    if xs != [] {
      var n := |xs| - 1;
      var i := Find(xs, ys, n);
      CutOne(xs, n);
      CutOne(ys, i);
      SameWithout(multiset(Cut(xs, n)), multiset(Cut(ys, i)), xs[n]);
      RankPermuted(less, Cut(xs, n), Cut(ys, i), x);
      RankCut(less, xs, n, x);
      RankCut(less, ys, i, x);
    }
  }

  // ---------- sums of ranks ----------

  function Sum(f: nat -> nat, xs: seq<nat>): nat {
    if xs == [] then 0 else Sum(f, xs[..|xs| - 1]) + f(xs[|xs| - 1])
  }

  lemma {:induction false} SumAdds(f: nat -> nat, g: nat -> nat, h: nat -> nat, xs: seq<nat>)
    requires forall x :: x in xs ==> h(x) == f(x) + g(x)
    ensures Sum(h, xs) == Sum(f, xs) + Sum(g, xs)
  {
    if xs != [] {
      SumAdds(f, g, h, xs[..|xs| - 1]);
    }
  }

  /** Adding `y` to the list adds one to the rank of everything after `y`. */
  lemma {:induction false} SumRanksGrows(less: Order, members: seq<nat>, y: nat, xs: seq<nat>)
    requires StrictOrder(less) && y !in xs
    ensures Sum(x => Rank(less, members + [y], x), xs) + Rank(less, xs, y)
         == Sum(x => Rank(less, members, x), xs) + |xs|
  {
    if xs != [] {
      var init, last := xs[..|xs| - 1], xs[|xs| - 1];
      SumRanksGrows(less, members, y, init);
      RankJoined(less, members, y, last);
      assert Decided(less, y, last);
    }
  }

  /** The ranks of k distinct elements among themselves add up to k(k - 1)/2. */
  lemma {:induction false} SumOfRanks(less: Order, xs: seq<nat>)
    requires StrictOrder(less) && Distinct(xs)
    ensures 2 * Sum(x => Rank(less, xs, x), xs) == |xs| * (|xs| - 1)
  {
    if xs != [] {
      var n := |xs| - 1;
      var init, last := xs[..n], xs[n];
      SumOfRanks(less, init);
      SumRanksGrows(less, init, last, init);
      RankJoined(less, init, last, last);
      assert init + [last] == xs;
      Square(n);
    }
  }

  lemma Square(n: nat)
    ensures n * (n - 1) + 2 * n == (n + 1) * n
  {
  }

  /** Distinct elements outside `ys` with values of at least `c` put a floor under the
      sum. */
  lemma {:induction false} SumAtLeast(f: nat -> nat, xs: seq<nat>, ys: seq<nat>, c: nat)
    requires Distinct(xs)
    requires forall x :: x in xs ==> x in ys || f(x) >= c
    ensures Sum(f, xs) >= c * (|xs| - |ys|)
  {
    if xs != [] {
      var n := |xs| - 1;
      var init, last := xs[..n], xs[n];
      if i :| 0 <= i < |ys| && ys[i] == last {
        forall x | x in init
          ensures x in Cut(ys, i) || f(x) >= c
        {
          if x in ys {
            var j :| 0 <= j < |ys| && ys[j] == x;
            assert Cut(ys, i)[if j < i then j else j - 1] == x;
          }
        }
        SumAtLeast(f, init, Cut(ys, i), c);
      } else {
        SumAtLeast(f, init, ys, c);
        Step(c, n - |ys|);
      }
    }
  }

  lemma Step(c: nat, k: int)
    ensures c * (k + 1) == c * k + c
  {
  }

  // ---------- the ranking ----------

  /** The scores of `n` candidates; lower is better. */
  datatype Scores = Scores(luma: seq<int>, rgb: seq<int>, text: seq<real>) {
    predicate Valid() { |luma| == |rgb| == |text| }
  }

  function ByInt(keys: seq<int>): Order {
    (i: nat, j: nat) => Key(keys, i) < Key(keys, j) || (Key(keys, i) == Key(keys, j) && i < j)
  }

  function Key(keys: seq<int>, i: nat): int { if i < |keys| then keys[i] else 0 }

  function ByReal(keys: seq<real>): Order {
    (i: nat, j: nat) => RealKey(keys, i) < RealKey(keys, j) || (RealKey(keys, i) == RealKey(keys, j) && i < j)
  }

  function RealKey(keys: seq<real>, i: nat): real { if i < |keys| then keys[i] else 0.0 }

  function Range(n: nat): (r: seq<nat>)
    ensures |r| == n && (forall i: nat :: i < n ==> r[i] == i) && Distinct(r)
  {
    seq(n, i requires 0 <= i => i)
  }

  function LumaOrder(luma: seq<int>): seq<nat> { Sort(ByInt(luma), Range(|luma|)) }

  /** The twelve candidates with the lowest luma scores, or all if there are fewer. */
  function Top(luma: seq<int>): seq<nat> {
    var order := LumaOrder(luma);
    if |order| > STAGE2 then order[..STAGE2] else order
  }

  /** The sum of a candidate's ranks; one that was not scored in full gets the number
      of candidates instead of its other two. */
  function Consensus(sc: Scores, x: nat): nat {
    var top := Top(sc.luma);
    Rank(ByInt(sc.luma), Range(|sc.luma|), x) +
      if x in top then Rank(ByInt(sc.rgb), top, x) + Rank(ByReal(sc.text), top, x) else |sc.luma|
  }

  function ByConsensus(consensus: nat -> nat, luma: seq<int>): Order {
    (i: nat, j: nat) => consensus(i) < consensus(j) || (consensus(i) == consensus(j) && ByInt(luma)(i, j))
  }

  function FinalOrder(sc: Scores): Order { ByConsensus(x => Consensus(sc, x), sc.luma) }

  /** All candidates, in increasing order of consensus, then luma score, then number. */
  predicate IsRanking(sc: Scores, ranked: seq<nat>) {
    multiset(ranked) == multiset(Range(|sc.luma|)) && Increasing(FinalOrder(sc), ranked)
  }

  lemma IntsStrict(keys: seq<int>)
    ensures StrictOrder(ByInt(keys))
  {
    forall i: nat, j: nat
      ensures Decided(ByInt(keys), i, j)
    {
    }
  }

  lemma RealsStrict(keys: seq<real>)
    ensures StrictOrder(ByReal(keys))
  {
    forall i: nat, j: nat
      ensures Decided(ByReal(keys), i, j)
    {
    }
  }

  lemma ConsensusStrict(consensus: nat -> nat, luma: seq<int>)
    ensures StrictOrder(ByConsensus(consensus, luma))
  {
    IntsStrict(luma);
    forall i: nat, j: nat
      ensures Decided(ByConsensus(consensus, luma), i, j)
    {
      assert Decided(ByInt(luma), i, j);
    }
  }

  /** The ranking is determined by the scores alone. */
  lemma RankingUnique(sc: Scores, a: seq<nat>, b: seq<nat>)
    requires IsRanking(sc, a) && IsRanking(sc, b)
    ensures a == b
  {
    ConsensusStrict(x => Consensus(sc, x), sc.luma);
    SortedUnique(FinalOrder(sc), a, b);
  }

  // ---------- the first five were scored in full ----------

  lemma LumaOrdered(luma: seq<int>)
    ensures var order := LumaOrder(luma);
      && multiset(order) == multiset(Range(|luma|)) && |order| == |luma|
      && Increasing(ByInt(luma), order) && Distinct(order)
  {
    IntsStrict(luma);
    SortSame(ByInt(luma), Range(|luma|));
    SortIncreasing(ByInt(luma), Range(|luma|));
    IncreasingDistinct(ByInt(luma), LumaOrder(luma));
    assert |multiset(LumaOrder(luma))| == |multiset(Range(|luma|))|;
  }

  lemma LumaRank(luma: seq<int>, i: nat)
    requires i < |LumaOrder(luma)|
    ensures Rank(ByInt(luma), Range(|luma|), LumaOrder(luma)[i]) == i
  {
    var order := LumaOrder(luma);
    LumaOrdered(luma);
    IntsStrict(luma);
    RankIsPosition(ByInt(luma), order, i, |order|);
    assert order[..|order|] == order;
    RankPermuted(ByInt(luma), order, Range(|luma|), order[i]);
  }

  lemma {:induction false} SumOfPositions(f: nat -> nat, order: seq<nat>, k: nat)
    requires k <= |order| && forall i: nat :: i < |order| ==> f(order[i]) == i
    ensures 2 * Sum(f, order[..k]) == k * (k - 1)
  {
    if k > 0 {
      SumOfPositions(f, order, k - 1);
      assert order[..k][..k - 1] == order[..k - 1];
      Square(k - 1);
    }
  }

  /** The summed ranks of the twelve that were scored in full add up to 3 * 66. */
  lemma TopSum(sc: Scores, top: seq<nat>)
    requires |sc.luma| > STAGE2 && top == Top(sc.luma)
    ensures |top| == STAGE2 && Distinct(top)
    ensures Sum(x => Consensus(sc, x), top) == 198
  {
    LumaOrdered(sc.luma);
    var order := LumaOrder(sc.luma);
    var luma: nat -> nat := (x: nat) => Rank(ByInt(sc.luma), Range(|sc.luma|), x);
    var rgb: nat -> nat := (x: nat) => Rank(ByInt(sc.rgb), top, x);
    var text: nat -> nat := (x: nat) => Rank(ByReal(sc.text), top, x);
    forall i: nat | i < |order|
      ensures luma(order[i]) == i
    {
      LumaRank(sc.luma, i);
    }
    SumOfPositions(luma, order, STAGE2);
    IntsStrict(sc.rgb);
    RealsStrict(sc.text);
    SumOfRanks(ByInt(sc.rgb), top);
    SumOfRanks(ByReal(sc.text), top);
    ThreeSums(sc, top, luma, rgb, text);
  }

  lemma ThreeSums(sc: Scores, top: seq<nat>, luma: nat -> nat, rgb: nat -> nat, text: nat -> nat)
    requires top == Top(sc.luma)
    requires forall x: nat :: luma(x) == Rank(ByInt(sc.luma), Range(|sc.luma|), x)
    requires forall x: nat :: rgb(x) == Rank(ByInt(sc.rgb), top, x)
    requires forall x: nat :: text(x) == Rank(ByReal(sc.text), top, x)
    ensures Sum(x => Consensus(sc, x), top) == Sum(luma, top) + Sum(rgb, top) + Sum(text, top)
  {
    var others: nat -> nat := (x: nat) => rgb(x) + text(x);
    SumAdds(rgb, text, others, top);
    SumAdds(luma, others, x => Consensus(sc, x), top);
  }

  /** Whatever was not scored in full has a summed rank of at least 12 + 13. */
  lemma OthersRankLow(sc: Scores, x: nat)
    requires |sc.luma| > STAGE2 && x < |sc.luma| && x !in Top(sc.luma)
    ensures Consensus(sc, x) >= 25
  {
    LumaOrdered(sc.luma);
    var order := LumaOrder(sc.luma);
    assert Range(|sc.luma|)[x] in multiset(order);
    var i :| 0 <= i < |order| && order[i] == x;
    LumaRank(sc.luma, i);
  }

  /** For at least five candidates, the first five of the ranking, so also the two
      that can be submitted, have been scored by all three measures. */
  lemma FirstFiveScored(sc: Scores, ranked: seq<nat>, p: nat)
    requires sc.Valid() && IsRanking(sc, ranked) && p < 5 <= |sc.luma|
    ensures |ranked| == |sc.luma| && ranked[p] in Top(sc.luma)
  {
    var n, top := |sc.luma|, Top(sc.luma);
    assert |multiset(ranked)| == |multiset(Range(n))|;
    LumaOrdered(sc.luma);
    var z := ranked[p];
    assert z in multiset(Range(n));
    if n <= STAGE2 {
      assert z in multiset(LumaOrder(sc.luma));
    } else if z !in top {
      TopSum(sc, top);
      OthersRankLow(sc, z);
      forall x | x in top
        ensures x in ranked[..p] || Consensus(sc, x) >= 25
      {
        LaterRanksLower(sc, ranked, p, x);
      }
      SumAtLeast(x => Consensus(sc, x), top, ranked[..p], 25);
      assert false;
    }
  }

  lemma TopIsRanked(sc: Scores, ranked: seq<nat>, x: nat) returns (j: nat)
    requires IsRanking(sc, ranked) && x in Top(sc.luma)
    ensures j < |ranked| && ranked[j] == x
  {
    LumaOrdered(sc.luma);
    assert x in multiset(LumaOrder(sc.luma));
    assert x in multiset(ranked);
    j :| 0 <= j < |ranked| && ranked[j] == x;
  }

  lemma LaterRanksLower(sc: Scores, ranked: seq<nat>, p: nat, x: nat)
    requires IsRanking(sc, ranked) && p < |ranked| && x in Top(sc.luma) && ranked[p] !in Top(sc.luma)
    ensures x in ranked[..p] || Consensus(sc, x) >= Consensus(sc, ranked[p])
  {
    var j := TopIsRanked(sc, ranked, x);
    if j < p {
      assert ranked[..p][j] == x;
    } else {
      assert FinalOrder(sc)(ranked[p], ranked[j]);
    }
  }
}
