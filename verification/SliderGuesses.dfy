/** The scoring and ranking procedure of client/captcha_v2_slider.go, with its
    arrays, its unordered second stage, and the order it returns. */
module SliderGuesses {
  import opened SliderTiles
  import opened SliderSeams
  import opened SliderRanking
  import opened SliderStanding

  datatype Guess = Guess(index: nat, swaps: seq<int>, scoreLuma: int, scoreRgb: int, scoreText: real, consensus: nat)

  datatype Answer = NoCandidates | BadSwaps(fault: SwapFault) | Guesses(guesses: seq<Guess>)

  /** The measures of an arrangement by colour and by text, only ever used as given here. */
  datatype Measures = Measures(rgb: seq<int> -> int, text: seq<int> -> real)

  function Candidates(swaps: seq<int>): nat { |swaps| / 2 }

  /** The tiles as candidate `x` arranges them. */
  function MappingOf(g: nat, swaps: seq<int>, x: nat): seq<int>
    requires AllInRange(swaps, g * g) && x < Candidates(swaps)
  {
    Swapped(g * g, swaps, x + 1)
  }

  /** The seam score of an arrangement, where it is one. */
  function LumaScore(img: Image, g: nat, mapping: seq<int>): int
    requires img.Valid()
  {
    var l := Layout(img.bounds, g, mapping);
    if l.Valid() then Total(Differences(img), AllPairs(SeamsOf(l))) else 0
  }

  /** The seam scores of all candidates. */
  function Lumas(img: Image, g: nat, swaps: seq<int>): (luma: seq<int>)
    requires img.Valid() && AllInRange(swaps, g * g)
    ensures |luma| == Candidates(swaps)
  {
    seq(Candidates(swaps), x requires 0 <= x < Candidates(swaps) => LumaScore(img, g, MappingOf(g, swaps, x)))
  }

  /** Only the twelve best by luma get the other two scores. */
  function ScoresOf(g: nat, swaps: seq<int>, luma: seq<int>, m: Measures): (sc: Scores)
    requires AllInRange(swaps, g * g) && |luma| == Candidates(swaps)
    ensures sc.Valid() && sc.luma == luma
  {
    var n, top := Candidates(swaps), Top(luma);
    Scores(luma,
           seq(n, x requires 0 <= x < n => if x in top then m.rgb(MappingOf(g, swaps, x)) else 0),
           seq(n, x requires 0 <= x < n => if x in top then m.text(MappingOf(g, swaps, x)) else 0.0))
  }

  // ---------- the stages ----------

  /** The mapping of candidate `x`, computed in place. */
  method Arrange(g: nat, swaps: seq<int>, x: nat) returns (r: Result<array<int>>)
    requires g > 0 && x < Candidates(swaps)
    ensures r.Ok? <==> Acceptable(g, ActiveSwaps(swaps, x + 1))
    ensures r.Ok? ==> fresh(r.value) && AllInRange(ActiveSwaps(swaps, x + 1), g * g)
    ensures r.Ok? ==> r.value[..] == Swapped(g * g, ActiveSwaps(swaps, x + 1), x + 1)
  {
    r := ApplySwaps(g, ActiveSwaps(swaps, x + 1));
  }

  lemma PrefixAcceptable(g: nat, swaps: seq<int>, x: nat)
    requires g > 0 && AllInRange(swaps, g * g) && x < Candidates(swaps)
    ensures Acceptable(g, ActiveSwaps(swaps, x + 1))
  {
    var active := ActiveSwaps(swaps, x + 1);
    forall k | 0 <= k < |active| / 2
      ensures InRange(active, k, g * g)
    {
      assert InRange(swaps, k, g * g);
    }
  }

  lemma PrefixMapping(g: nat, swaps: seq<int>, x: nat)
    requires g > 0 && AllInRange(swaps, g * g) && x < Candidates(swaps)
    ensures Acceptable(g, ActiveSwaps(swaps, x + 1))
    ensures Swapped(g * g, ActiveSwaps(swaps, x + 1), x + 1) == MappingOf(g, swaps, x)
  {
    PrefixAcceptable(g, swaps, x);
    SwappedPrefix(g * g, swaps, ActiveSwaps(swaps, x + 1), x + 1);
  }

  /** The swaps of the last candidate are all of them, so one bad pair anywhere is
      noticed. */
  lemma LastSeesAll(g: nat, swaps: seq<int>, x: nat)
    requires g > 0 && x + 1 == Candidates(swaps) && Acceptable(g, ActiveSwaps(swaps, x + 1))
    ensures AllInRange(swaps, g * g)
  {
    var active := ActiveSwaps(swaps, x + 1);
    forall k | 0 <= k < |swaps| / 2
      ensures InRange(swaps, k, g * g)
    {
      assert InRange(active, k, g * g);
    }
  }

  /** One candidate: its swaps done in place, then the loops over its seams. */
  method ScoreCandidate(img: Image, g: nat, swaps: seq<int>, x: nat) returns (r: Result<nat>)
    requires img.Valid() && g > 0 && x < Candidates(swaps)
    ensures r.Ok? <==> Acceptable(g, ActiveSwaps(swaps, x + 1))
    ensures r.Ok? && AllInRange(swaps, g * g) ==> r.value == Lumas(img, g, swaps)[x]
  {
    var mapping := Arrange(g, swaps, x);
    if mapping.Err? {
      return Err(mapping.fault);
    }
    ghost var active := ActiveSwaps(swaps, x + 1);
    SwappedIsPermutation(g * g, active, x + 1);
    if AllInRange(swaps, g * g) {
      PrefixMapping(g, swaps, x);
    }
    var score := SeamScoreLuma(img, Layout(img.bounds, g, mapping.value[..]));
    r := Ok(score);
  }

  /** Scores every candidate by luma, unless some swap is out of range. */
  method ScoreLuma(img: Image, g: nat, swaps: seq<int>) returns (r: Result<array<int>>)
    requires img.Valid() && g > 0 && Candidates(swaps) > 0
    ensures r.Ok? <==> AllInRange(swaps, g * g)
    ensures r.Ok? ==> fresh(r.value) && r.value[..] == Lumas(img, g, swaps)
  {
    var n := Candidates(swaps);
    var luma := new int[n](_ => 0);
    ghost var good := AllInRange(swaps, g * g);
    ghost var scores := if good then Lumas(img, g, swaps) else [];
    var x := 0;
    while x < n
      invariant 0 <= x <= n && fresh(luma)
      invariant x > 0 ==> Acceptable(g, ActiveSwaps(swaps, x))
      invariant good ==> luma[..x] == scores[..x]
    {
      if good {
        PrefixAcceptable(g, swaps, x);
      }
      var score := ScoreCandidate(img, g, swaps, x);
      if score.Err? {
        return Err(score.fault);
      }
      luma[x] := score.value;
      x := x + 1;
    }
    LastSeesAll(g, swaps, n - 1);
    assert luma[..] == luma[..n];
    r := Ok(luma);
  }

  /** Gives every member of an increasing list its position. */
  method RankAll(less: Order, order: seq<nat>, ranks: array<nat>)
    requires StrictOrder(less) && Increasing(less, order) && forall x :: x in order ==> x < ranks.Length
    modifies ranks
    ensures forall x :: x in order ==> ranks[x] == Rank(less, order, x)
    ensures forall x: nat :: x < ranks.Length && x !in order ==> ranks[x] == old(ranks[x])
  {
    IncreasingDistinct(less, order);
    assert forall i :: 0 <= i < |order| ==> order[i] in order;
    for rank := 0 to |order|
      invariant forall i :: 0 <= i < rank ==> order[i] in order && ranks[order[i]] == i
      invariant forall x: nat :: x < ranks.Length && x !in order ==> ranks[x] == old(ranks[x])
    {
      ranks[order[rank]] := rank;
    }
    forall x | x in order
      ensures ranks[x] == Rank(less, order, x)
    {
      var i :| 0 <= i < |order| && order[i] == x;
      RankIsPosition(less, order, i, |order|);
      assert order[..|order|] == order;
    }
  }

  /** Scores the chosen candidates by colour and text, in whatever order the scorers
      come to them. */
  method ScoreStage2(g: nat, swaps: seq<int>, m: Measures, chosen: set<nat>, rgb: array<int>, text: array<real>)
    requires g > 0 && AllInRange(swaps, g * g) && forall x :: x in chosen ==> x < Candidates(swaps)
    requires rgb.Length == text.Length == Candidates(swaps)
    modifies rgb, text
    ensures forall x :: x in chosen ==>
      rgb[x] == m.rgb(MappingOf(g, swaps, x)) && text[x] == m.text(MappingOf(g, swaps, x))
    ensures forall x: nat :: x < rgb.Length && x !in chosen ==> rgb[x] == old(rgb[x]) && text[x] == old(text[x])
  {
    var remaining := chosen;
    while remaining != {}
      invariant remaining <= chosen
      invariant forall x :: x in chosen && x !in remaining ==>
        rgb[x] == m.rgb(MappingOf(g, swaps, x)) && text[x] == m.text(MappingOf(g, swaps, x))
      invariant forall x: nat :: x < rgb.Length && x !in chosen ==> rgb[x] == old(rgb[x]) && text[x] == old(text[x])
      decreases |remaining|
    {
      var x :| x in remaining;
      PrefixMapping(g, swaps, x);
      var mapping := Arrange(g, swaps, x);
      rgb[x], text[x] := m.rgb(mapping.value[..]), m.text(mapping.value[..]);
      remaining := remaining - {x};
    }
  }

  /** Sorts a list and gives each member its rank, by number. */
  method RankSorted(less: Order, xs: seq<nat>, n: nat) returns (ranks: seq<nat>)
    requires StrictOrder(less) && Distinct(xs) && forall x :: x in xs ==> x < n
    ensures |ranks| == n && forall x :: x in xs ==> ranks[x] == Rank(less, xs, x)
  {
    var order := Sort(less, xs);
    SortSame(less, xs);
    SortIncreasing(less, xs);
    forall x
      ensures x in order <==> x in xs
    {
      assert x in multiset(order) <==> x in multiset(xs);
    }
    var found := new nat[n](_ => 0);
    RankAll(less, order, found);
    forall x | x in xs
      ensures found[x] == Rank(less, xs, x)
    {
      RankPermuted(less, order, xs, x);
    }
    ranks := found[..];
  }

  lemma TopIsSound(luma: seq<int>)
    ensures Distinct(Top(luma)) && forall x :: x in Top(luma) ==> x < |luma|
  {
    LumaOrdered(luma);
    forall x | x in Top(luma)
      ensures x < |luma|
    {
      assert x in multiset(LumaOrder(luma));
    }
  }

  /** The summed ranks of all candidates. */
  method SumRanks(sc: Scores) returns (consensus: array<nat>)
    requires sc.Valid()
    ensures fresh(consensus) && consensus.Length == |sc.luma|
    ensures forall x: nat :: x < |sc.luma| ==> consensus[x] == Consensus(sc, x)
  {
    var n, top := |sc.luma|, Top(sc.luma);
    TopIsSound(sc.luma);
    IntsStrict(sc.luma);
    IntsStrict(sc.rgb);
    RealsStrict(sc.text);
    var lumaRank := RankSorted(ByInt(sc.luma), Range(n), n);
    var rgbRank := RankSorted(ByInt(sc.rgb), top, n);
    var textRank := RankSorted(ByReal(sc.text), top, n);
    consensus := new nat[n](_ => 0);
    for x := 0 to n
      invariant forall k: nat :: k < x ==> consensus[k] == Consensus(sc, k)
    {
      assert Range(n)[x] == x;
      consensus[x] := lumaRank[x] + if x in top then rgbRank[x] + textRank[x] else n;
    }
  }

  /** The final sort, by the summed ranks at hand. */
  method SortAll(sc: Scores, consensus: seq<nat>) returns (ranked: seq<nat>)
    requires sc.Valid() && |consensus| == |sc.luma|
    requires forall x: nat :: x < |sc.luma| ==> consensus[x] == Consensus(sc, x)
    ensures IsRanking(sc, ranked)
    ensures |ranked| == |sc.luma| && forall p :: 0 <= p < |ranked| ==> ranked[p] < |sc.luma|
  {
    var n := |sc.luma|;
    var known: nat -> nat := (x: nat) => if x < |consensus| then consensus[x] else 0;
    var less := ByConsensus(known, sc.luma);
    ranked := Sort(less, Range(n));
    ConsensusStrict(known, sc.luma);
    SortSame(less, Range(n));
    SortIncreasing(less, Range(n));
    SameLength(ranked, Range(n));
    forall p | 0 <= p < |ranked|
      ensures ranked[p] < n
    {
      assert ranked[p] in multiset(Range(n));
    }
    forall i, j | 0 <= i < j < |ranked|
      ensures FinalOrder(sc)(ranked[i], ranked[j])
    {
      assert less(ranked[i], ranked[j]);
    }
  }

  function GuessOf(sc: Scores, swaps: seq<int>, x: nat): Guess
    requires sc.Valid() && x < |sc.luma|
  {
    Guess(x + 1, ActiveSwaps(swaps, x + 1), sc.luma[x], sc.rgb[x], sc.text[x], Consensus(sc, x))
  }

  /** The guess was scored by all three measures. */
  predicate FullyScored(g: nat, swaps: seq<int>, luma: seq<int>, m: Measures, guess: Guess)
    requires AllInRange(swaps, g * g) && |luma| == Candidates(swaps)
  {
    && 0 < guess.index <= Candidates(swaps)
    && guess.scoreLuma == luma[guess.index - 1]
    && guess.scoreRgb == m.rgb(MappingOf(g, swaps, guess.index - 1))
    && guess.scoreText == m.text(MappingOf(g, swaps, guess.index - 1))
  }

  lemma TopFullyScored(g: nat, swaps: seq<int>, luma: seq<int>, m: Measures, ranked: seq<nat>, p: nat)
    requires AllInRange(swaps, g * g) && |luma| == Candidates(swaps) && IsRanking(ScoresOf(g, swaps, luma, m), ranked)
    requires p < 5 <= Candidates(swaps) && |ranked| == Candidates(swaps) && ranked[p] < Candidates(swaps)
    ensures FullyScored(g, swaps, luma, m, GuessOf(ScoresOf(g, swaps, luma, m), swaps, ranked[p]))
  {
    FirstFiveScored(ScoresOf(g, swaps, luma, m), ranked, p);
  }

  method ScoreRest(g: nat, swaps: seq<int>, luma: seq<int>, m: Measures) returns (sc: Scores)
    requires g > 0 && AllInRange(swaps, g * g) && |luma| == Candidates(swaps)
    ensures sc == ScoresOf(g, swaps, luma, m)
  {
    var n, top := Candidates(swaps), Top(luma);
    var rgb, text := new int[n](_ => 0), new real[n](_ => 0.0);
    TopIsSound(luma);
    var chosen := set x | x in top;
    ScoreStage2(g, swaps, m, chosen, rgb, text);
    sc := Scores(luma, rgb[..], text[..]);
  }

  /** The guesses in the order of the list. */
  method GuessAll(sc: Scores, swaps: seq<int>, consensus: seq<nat>, order: seq<nat>) returns (guesses: seq<Guess>)
    requires sc.Valid() && |consensus| == |sc.luma| && forall p :: 0 <= p < |order| ==> order[p] < |sc.luma|
    requires forall x: nat :: x < |sc.luma| ==> consensus[x] == Consensus(sc, x)
    ensures |guesses| == |order| && forall p :: 0 <= p < |order| ==> guesses[p] == GuessOf(sc, swaps, order[p])
  {
    guesses := [];
    for p := 0 to |order|
      invariant |guesses| == p
      invariant forall k :: 0 <= k < p ==> guesses[k] == GuessOf(sc, swaps, order[k])
    {
      var x := order[p];
      guesses := guesses + [Guess(x + 1, ActiveSwaps(swaps, x + 1), sc.luma[x], sc.rgb[x], sc.text[x], consensus[x])];
    }
  }

  /** The candidates in the order of their guesses. */
  function PlacesOf(guesses: seq<Guess>): seq<nat> {
    seq(|guesses|, p requires 0 <= p < |guesses| => if guesses[p].index > 0 then guesses[p].index - 1 else 0)
  }

  /** Every candidate is returned once, as scored, in the one order the scores
      determine, and the first five of at least five were scored in full. */
  ghost predicate Ranked(g: nat, swaps: seq<int>, luma: seq<int>, m: Measures, guesses: seq<Guess>)
    requires AllInRange(swaps, g * g) && |luma| == Candidates(swaps)
  {
    var sc := ScoresOf(g, swaps, luma, m);
    && |guesses| == Candidates(swaps) && IsRanking(sc, PlacesOf(guesses))
    && (forall p :: 0 <= p < |guesses| ==>
          0 < guesses[p].index <= |luma| && guesses[p] == GuessOf(sc, swaps, guesses[p].index - 1))
    && (|guesses| >= 5 ==> forall p :: 0 <= p < 5 ==> FullyScored(g, swaps, luma, m, guesses[p]))
  }

  // ---------- the result in terms of the raw scores ----------

  /** What every candidate would score, whether it is scored or not. */
  function Measured(g: nat, swaps: seq<int>, luma: seq<int>, m: Measures): (all: Scores)
    requires AllInRange(swaps, g * g) && |luma| == Candidates(swaps)
    ensures all.Valid() && all.luma == luma
  {
    var n := Candidates(swaps);
    Scores(luma, seq(n, x requires 0 <= x < n => m.rgb(MappingOf(g, swaps, x))),
           seq(n, x requires 0 <= x < n => m.text(MappingOf(g, swaps, x))))
  }

  /** A guess tells its number, its swaps, the scores it was given and its places. */
  ghost predicate AsScored(all: Scores, swaps: seq<int>, guess: Guess)
    requires all.Valid() && |swaps| / 2 == |all.luma|
  {
    0 < guess.index <= |all.luma| &&
    var x, scored := guess.index - 1, guess.index - 1 in Twelve(all.luma);
    guess == Guess(x + 1, swaps[..2 * x + 2], all.luma[x], if scored then all.rgb[x] else 0,
                   if scored then all.text[x] else 0.0, Places(all, x))
  }

  predicate Precedes(a: Guess, b: Guess) {
    || a.consensus < b.consensus
    || (a.consensus == b.consensus
        && (a.scoreLuma < b.scoreLuma || (a.scoreLuma == b.scoreLuma && a.index < b.index)))
  }

  /** One guess for each candidate, in increasing order of places, then seam score,
      then number. */
  ghost predicate Standing(all: Scores, swaps: seq<int>, guesses: seq<Guess>)
    requires all.Valid() && |swaps| / 2 == |all.luma|
  {
    && |guesses| == |all.luma| && (forall p :: 0 <= p < |guesses| ==> AsScored(all, swaps, guesses[p]))
    && forall p, q :: 0 <= p < q < |guesses| ==> Precedes(guesses[p], guesses[q])
  }

  lemma GuessAsScored(g: nat, swaps: seq<int>, luma: seq<int>, m: Measures, sc: Scores, all: Scores, x: nat)
    requires AllInRange(swaps, g * g) && |luma| == Candidates(swaps) && x < |luma|
    requires sc == ScoresOf(g, swaps, luma, m) && all == Measured(g, swaps, luma, m)
    ensures AsScored(all, swaps, GuessOf(sc, swaps, x))
  {
    TwelveAreTop(luma);
    ConsensusCounts(sc, all, x);
  }

  lemma OrderPrecedes(sc: Scores, swaps: seq<int>, x: nat, y: nat)
    requires sc.Valid() && x < |sc.luma| && y < |sc.luma| && FinalOrder(sc)(x, y)
    ensures Precedes(GuessOf(sc, swaps, x), GuessOf(sc, swaps, y))
  {
  }

  lemma RankedPrecedes(sc: Scores, swaps: seq<int>, guesses: seq<Guess>, p: nat, q: nat)
    requires sc.Valid() && IsRanking(sc, PlacesOf(guesses)) && p < q < |guesses|
    requires 0 < guesses[p].index <= |sc.luma| && 0 < guesses[q].index <= |sc.luma|
    requires guesses[p] == GuessOf(sc, swaps, guesses[p].index - 1)
    requires guesses[q] == GuessOf(sc, swaps, guesses[q].index - 1)
    ensures Precedes(guesses[p], guesses[q])
  {
    var places := PlacesOf(guesses);
    assert FinalOrder(sc)(places[p], places[q]);
    OrderPrecedes(sc, swaps, guesses[p].index - 1, guesses[q].index - 1);
  }

  lemma RankedStanding(g: nat, swaps: seq<int>, luma: seq<int>, m: Measures, guesses: seq<Guess>)
    requires AllInRange(swaps, g * g) && |luma| == Candidates(swaps) && Ranked(g, swaps, luma, m, guesses)
    ensures Standing(Measured(g, swaps, luma, m), swaps, guesses)
  {
    var sc, all := ScoresOf(g, swaps, luma, m), Measured(g, swaps, luma, m);
    forall p | 0 <= p < |guesses|
      ensures AsScored(all, swaps, guesses[p])
    {
      GuessAsScored(g, swaps, luma, m, sc, all, guesses[p].index - 1);
    }
    forall p, q | 0 <= p < q < |guesses|
      ensures Precedes(guesses[p], guesses[q])
    {
      RankedPrecedes(sc, swaps, guesses, p, q);
    }
  }

  /** Of two fully scored candidates `x` stands before `y` exactly if it is ahead by more
      candidates in the three scores together than it is behind, or by as many and its
      seam score is lower, or the same and its number lower. */
  lemma StandsFirstIff(all: Scores, swaps: seq<int>, guesses: seq<Guess>, p: nat, q: nat, x: nat, y: nat)
    requires all.Valid() && |swaps| / 2 == |all.luma| && Standing(all, swaps, guesses)
    requires p < |guesses| && q < |guesses| && p != q && x == guesses[p].index - 1 && y == guesses[q].index - 1
    requires x in Twelve(all.luma) && y in Twelve(all.luma)
    ensures p < q <==>
      || Gained(all, x, y) > Gained(all, y, x)
      || (Gained(all, x, y) == Gained(all, y, x)
          && (all.luma[x] < all.luma[y] || (all.luma[x] == all.luma[y] && x < y)))
  {
    assert AsScored(all, swaps, guesses[p]) && AsScored(all, swaps, guesses[q]);
    PlacesApart(all, x, y);
    if p < q {
      assert Precedes(guesses[p], guesses[q]);
    } else {
      assert Precedes(guesses[q], guesses[p]);
    }
  }

  /** A fully scored candidate stands before another if it is lower in all three scores,
      or no higher in any and has the lower number. */
  lemma BetterStandsFirst(all: Scores, swaps: seq<int>, guesses: seq<Guess>, p: nat, q: nat, x: nat, y: nat)
    requires all.Valid() && |swaps| / 2 == |all.luma| && Standing(all, swaps, guesses)
    requires p < |guesses| && q < |guesses| && p != q && x == guesses[p].index - 1 && y == guesses[q].index - 1
    requires x in Twelve(all.luma) && y in Twelve(all.luma)
    requires BetterInAll(all, x, y) || (NoWorse(all, x, y) && x < y)
    ensures p < q
  {
    GainsAll(all, x, y);
    StandsFirstIff(all, swaps, guesses, p, q, x, y);
  }

  /** Neither condition can be dropped: here the second candidate is no higher in any score
      and lower in one, and the first stands first, for ties count for the lower number
      in every score. */
  lemma TiesOutweigh(all: Scores, swaps: seq<int>, guesses: seq<Guess>)
    requires all == Scores([10, 10], [20, 10], [0.0, 0.0]) && |swaps| == 4 && Standing(all, swaps, guesses)
    ensures NoWorse(all, 1, 0) && all.rgb[1] < all.rgb[0] && guesses[0].index == 1
  {
    TwoTied(all);
    assert AsScored(all, swaps, guesses[0]) && AsScored(all, swaps, guesses[1]) && Precedes(guesses[0], guesses[1]);
    if guesses[0].index == 2 {
      StandsFirstIff(all, swaps, guesses, 1, 0, 0, 1);
    }
  }

  /** Ranks all candidates by their seam scores and the other two measures. */
  method RankGuesses(g: nat, swaps: seq<int>, luma: seq<int>, m: Measures) returns (guesses: seq<Guess>)
    requires g > 0 && AllInRange(swaps, g * g) && |luma| == Candidates(swaps)
    ensures Ranked(g, swaps, luma, m, guesses)
    ensures Standing(Measured(g, swaps, luma, m), swaps, guesses)
  {
    var sc := ScoreRest(g, swaps, luma, m);
    var consensus := SumRanks(sc);
    var order := SortAll(sc, consensus[..]);
    guesses := GuessAll(sc, swaps, consensus[..], order);
    assert PlacesOf(guesses) == order;
    forall p | 0 <= p < 5 <= |order|
      ensures FullyScored(g, swaps, luma, m, guesses[p])
    {
      TopFullyScored(g, swaps, luma, m, order, p);
    }
    RankedStanding(g, swaps, luma, m, guesses);
  }

  // ---------- the ranking of an image ----------

  lemma LumaBounded(img: Image, g: nat, swaps: seq<int>, x: nat)
    requires img.Valid() && g > 0 && AllInRange(swaps, g * g) && x < Candidates(swaps)
    ensures 0 <= Lumas(img, g, swaps)[x] <= 255 * ((g - 1) * (img.bounds.Dx() + img.bounds.Dy()))
  {
    var l := Layout(img.bounds, g, MappingOf(g, swaps, x));
    SwappedIsPermutation(g * g, swaps, x + 1);
    ScoreBounded(img, l, SeamsOf(l));
  }

  /** The ranking of an image's candidates. It fails exactly if there are none or a
      swap is out of range; otherwise the guesses are ranked by the seam scores that
      the loops over the image's seams have summed up. */
  method RankSliderGuesses(img: Image, g: nat, swaps: seq<int>, m: Measures) returns (r: Answer)
    requires img.Valid() && g > 0
    ensures r.NoCandidates? <==> Candidates(swaps) == 0
    ensures r.BadSwaps? <==> Candidates(swaps) > 0 && !AllInRange(swaps, g * g)
    ensures r.Guesses? ==> Ranked(g, swaps, Lumas(img, g, swaps), m, r.guesses)
    ensures r.Guesses? ==> Standing(Measured(g, swaps, Lumas(img, g, swaps), m), swaps, r.guesses)
  {
    if Candidates(swaps) == 0 {
      return NoCandidates;
    }
    var luma := ScoreLuma(img, g, swaps);
    if luma.Err? {
      return BadSwaps(luma.fault);
    }
    var guesses := RankGuesses(g, swaps, luma.value[..], m);
    r := Guesses(guesses);
  }
}
