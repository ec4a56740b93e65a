/** The tiles of the slider puzzle of client/captcha_v2_slider.go: which tile shows
    which after a list of swaps, and which pixels each tile covers. */
module SliderTiles {
  // ---------- swaps ----------

  datatype SwapFault = BadCount(tiles: int) | BadLength(length: nat) | OutOfRange(left: int, right: int)

  datatype Result<T> = Ok(value: T) | Err(fault: SwapFault)

  function Identity(n: nat): (m: seq<int>)
    ensures |m| == n && forall i :: 0 <= i < n ==> m[i] == i
  {
    seq(n, i => i)
  }

  /** Pair `k` names two of `n` tiles. */
  predicate InRange(swaps: seq<int>, k: nat, n: int) {
    2 * k + 1 < |swaps| && 0 <= swaps[2 * k] < n && 0 <= swaps[2 * k + 1] < n
  }

  predicate AllInRange(swaps: seq<int>, n: int) {
    forall k :: 0 <= k < |swaps| / 2 ==> InRange(swaps, k, n)
  }

  function Swap(m: seq<int>, left: nat, right: nat): (s: seq<int>)
    requires left < |m| && right < |m|
    ensures |s| == |m|
  {
    m[left := m[right]][right := m[left]]
  }

  /** The mapping after the first `k` swaps. */
  function Swapped(n: nat, swaps: seq<int>, k: nat): (m: seq<int>)
    requires 2 * k <= |swaps| && AllInRange(swaps, n)
    ensures |m| == n
  {
    if k == 0 then Identity(n)
    else
      assert InRange(swaps, k - 1, n);
      Swap(Swapped(n, swaps, k - 1), swaps[2 * k - 2], swaps[2 * k - 1])
  }

  /** Every tile is shown exactly once. */
  ghost predicate IsPermutation(m: seq<int>) {
    && (forall i :: 0 <= i < |m| ==> 0 <= m[i] < |m|)
    && (forall i, j :: 0 <= i < j < |m| ==> m[i] != m[j])
  }

  lemma {:induction false} SwappedIsPermutation(n: nat, swaps: seq<int>, k: nat)
    requires 2 * k <= |swaps| && AllInRange(swaps, n)
    ensures IsPermutation(Swapped(n, swaps, k))
  {
    if k > 0 {
      assert InRange(swaps, k - 1, n);
      SwappedIsPermutation(n, swaps, k - 1);
    }
  }

  /** The swaps the code accepts: whole pairs of existing tiles. */
  predicate Acceptable(gridSize: int, swaps: seq<int>) {
    gridSize * gridSize > 0 && |swaps| % 2 == 0 && AllInRange(swaps, gridSize * gridSize)
  }

  /** Swaps tiles in place. It succeeds exactly on acceptable swaps, and then every
      tile is shown once. */
  method ApplySwaps(gridSize: int, swaps: seq<int>) returns (r: Result<array<int>>)
    ensures r.Ok? <==> Acceptable(gridSize, swaps)
    ensures r.Ok? ==> fresh(r.value) && r.value[..] == Swapped(gridSize * gridSize, swaps, |swaps| / 2)
    ensures r.Ok? ==> IsPermutation(r.value[..])
    ensures r.Ok? ==> forall i :: 0 <= i < gridSize * gridSize ==> r.value[i] == Traced(swaps, i)
  {
    var tileCount := gridSize * gridSize;
    if tileCount <= 0 {
      return Err(BadCount(tileCount));
    }
    if |swaps| % 2 != 0 {
      return Err(BadLength(|swaps|));
    }
    var mapping := new int[tileCount](i => i);
    assert mapping[..] == Identity(tileCount);
    var i := 0;
    while i < |swaps| / 2
      invariant 0 <= i <= |swaps| / 2 && fresh(mapping)
      invariant AllInRange(swaps[..2 * i], tileCount)
      invariant mapping[..] == Swapped(tileCount, swaps[..2 * i], i)
    {
      var left, right := swaps[2 * i], swaps[2 * i + 1];
      if left < 0 || right < 0 || left >= tileCount || right >= tileCount {
        assert !InRange(swaps, i, tileCount);
        return Err(OutOfRange(left, right));
      }
      mapping[left], mapping[right] := mapping[right], mapping[left];
      PrefixInRange(swaps, i, tileCount);
      SwappedPrefix(tileCount, swaps[..2 * (i + 1)], swaps[..2 * i], i);
      i := i + 1;
    }
    assert swaps[..2 * (|swaps| / 2)] == swaps;
    SwappedIsPermutation(tileCount, swaps, |swaps| / 2);
    forall i | 0 <= i < tileCount
      ensures mapping[i] == Traced(swaps, i)
    {
      ShownAt(tileCount, swaps, i);
      assert mapping[i] == mapping[..][i];
    }
    r := Ok(mapping);
  }

  lemma PrefixInRange(swaps: seq<int>, i: nat, n: int)
    requires 2 * i + 1 < |swaps| && AllInRange(swaps[..2 * i], n) && InRange(swaps, i, n)
    ensures AllInRange(swaps[..2 * (i + 1)], n)
  {
    var more := swaps[..2 * (i + 1)];
    forall k | 0 <= k < |more| / 2
      ensures InRange(more, k, n)
    {
      if k < i {
        assert InRange(swaps[..2 * i], k, n);
      }
    }
  }

  lemma {:induction false} SwappedPrefix(n: nat, swaps: seq<int>, prefix: seq<int>, k: nat)
    requires prefix <= swaps && 2 * k <= |prefix| && AllInRange(swaps, n) && AllInRange(prefix, n)
    ensures Swapped(n, swaps, k) == Swapped(n, prefix, k)
  {
    if k > 0 {
      SwappedPrefix(n, swaps, prefix, k - 1);
    }
  }

  // ---------- the mapping, place by place ----------

  predicate WholePairs(swaps: seq<int>, n: int) { |swaps| % 2 == 0 && AllInRange(swaps, n) }

  lemma PairsPrefix(n: nat, swaps: seq<int>, more: seq<int>, l: int, r: int)
    requires |swaps| % 2 == 0 && more == swaps + [l, r] && WholePairs(more, n)
    ensures WholePairs(swaps, n) && 0 <= l < n && 0 <= r < n
  {
    assert InRange(more, |swaps| / 2, n);
    forall k | 0 <= k < |swaps| / 2
      ensures InRange(swaps, k, n)
    {
      assert InRange(more, k, n);
    }
  }

  lemma SwapAt(m: seq<int>, l: nat, r: nat, i: nat)
    requires l < |m| && r < |m| && i < |m|
    ensures Swap(m, l, r)[i] == if i == l then m[r] else if i == r then m[l] else m[i]
  {
  }

  lemma SwappedNext(n: nat, more: seq<int>, k: nat, l: int, r: int)
    requires 2 * k + 2 == |more| && AllInRange(more, n) && l == more[2 * k] && r == more[2 * k + 1]
    ensures 0 <= l < n && 0 <= r < n && Swapped(n, more, k + 1) == Swap(Swapped(n, more, k), l, r)
  {
    assert InRange(more, k, n);
  }

  /** One more pair makes its two places change what they show; without swaps every
      place shows its own tile. */
  lemma OnePairMore(n: nat, swaps: seq<int>, k: nat, l: int, r: int, more: seq<int>, i: nat)
    requires |swaps| == 2 * k && more == swaps + [l, r] && WholePairs(more, n) && i < n
    ensures Swapped(n, [], 0)[i] == i
    ensures WholePairs(swaps, n) && 0 <= l < n && 0 <= r < n
    ensures Swapped(n, more, k + 1)[i] ==
      if i == l then Swapped(n, swaps, k)[r] else if i == r then Swapped(n, swaps, k)[l] else Swapped(n, swaps, k)[i]
  {
    PairsPrefix(n, swaps, more, l, r);
    SwappedPrefix(n, more, swaps, k);
    SwappedNext(n, more, k, l, r);
    SwapAt(Swapped(n, swaps, k), l, r, i);
  }

  /** The tile that place `i` shows, traced back through the swaps from the last. */
  function Traced(swaps: seq<int>, i: int): int
    decreases |swaps|
  {
    if |swaps| < 2 then i
    else
      var l, r := swaps[|swaps| - 2], swaps[|swaps| - 1];
      Traced(swaps[..|swaps| - 2], if i == l then r else if i == r then l else i)
  }

  /** So each place shows the tile it is traced back to. */
  lemma {:induction false} ShownAt(n: nat, swaps: seq<int>, i: nat)
    requires WholePairs(swaps, n) && i < n
    ensures Swapped(n, swaps, |swaps| / 2)[i] == Traced(swaps, i)
    decreases |swaps|
  {
    if swaps != [] {
      var k := |swaps| - 2;
      var before, l, r := swaps[..k], swaps[k], swaps[k + 1];
      assert swaps == before + [l, r];
      OnePairMore(n, before, k / 2, l, r, swaps, i);
      ShownAt(n, before, if i == l then r else if i == r then l else i);
    }
  }

  /** The same pairs, the last of them first. */
  function PairsReversed(swaps: seq<int>): (back: seq<int>)
    requires |swaps| % 2 == 0
    ensures |back| == |swaps|
    decreases |swaps|
  {
    if swaps == [] then [] else
    var k := |swaps| - 2;
    [swaps[k], swaps[k + 1]] + PairsReversed(swaps[..k])
  }

  lemma {:induction false} TracedThrough(a: seq<int>, b: seq<int>, i: int)
    requires |a| % 2 == 0 == |b| % 2
    ensures Traced(a + b, i) == Traced(a, Traced(b, i))
    decreases |b|
  {
    if b == [] {
      assert a + b == a;
    } else {
      var k := |b| - 2;
      var l, r := b[k], b[k + 1];
      assert (a + b)[..|a| + k] == a + b[..k];
      TracedThrough(a, b[..k], if i == l then r else if i == r then l else i);
    }
  }

  lemma {:induction false} TracedBack(swaps: seq<int>, i: int)
    requires |swaps| % 2 == 0
    ensures Traced(swaps, Traced(PairsReversed(swaps), i)) == i
    decreases |swaps|
  {
    if swaps != [] {
      var k := |swaps| - 2;
      var before, pair := swaps[..k], [swaps[k], swaps[k + 1]];
      var j := Traced(PairsReversed(before), i);
      assert swaps == before + pair;
      TracedThrough(pair, PairsReversed(before), i);
      TracedThrough(before, pair, Traced(pair, j));
      assert pair[..0] == [];
      TracedBack(before, i);
    }
  }

  lemma {:induction false} ReversedInRange(n: nat, swaps: seq<int>)
    requires WholePairs(swaps, n)
    ensures WholePairs(PairsReversed(swaps), n)
    decreases |swaps|
  {
    if swaps != [] {
      var k, back := |swaps| - 2, PairsReversed(swaps);
      var before := swaps[..k];
      PairsPrefix(n, before, swaps, swaps[k], swaps[k + 1]);
      ReversedInRange(n, before);
      forall j | 0 <= j < |back| / 2
        ensures InRange(back, j, n)
      {
        assert j > 0 ==> InRange(PairsReversed(before), j - 1, n);
      }
    }
  }

  lemma PairsJoined(n: nat, a: seq<int>, b: seq<int>)
    requires WholePairs(a, n) && WholePairs(b, n)
    ensures WholePairs(a + b, n)
  {
    forall k | 0 <= k < |a + b| / 2
      ensures InRange(a + b, k, n)
    {
      if k < |a| / 2 {
        assert InRange(a, k, n);
      } else {
        assert InRange(b, k - |a| / 2, n);
      }
    }
  }

  /** Swaps followed by the same pairs in reverse bring every tile back. */
  lemma SwapsUndone(n: nat, swaps: seq<int>, both: seq<int>, i: nat)
    requires WholePairs(swaps, n) && both == swaps + PairsReversed(swaps) && i < n
    ensures WholePairs(both, n) && Swapped(n, both, |both| / 2)[i] == i
  {
    var back := PairsReversed(swaps);
    ReversedInRange(n, swaps);
    PairsJoined(n, swaps, back);
    ShownAt(n, both, i);
    TracedThrough(swaps, back, i);
    TracedBack(swaps, i);
  }

  /** The swaps of candidate `index`: the first so many pairs. */
  function ActiveSwaps(swaps: seq<int>, index: int): (active: seq<int>)
    ensures active <= swaps
    ensures index <= 0 ==> active == []
    ensures index > 0 ==> |active| == if 2 * index < |swaps| then 2 * index else |swaps|
  {
    if index <= 0 then []
    else if 2 * index > |swaps| then swaps
    else swaps[..2 * index]
  }

  // ---------- rectangles ----------

  datatype Rect = Rect(minX: int, minY: int, maxX: int, maxY: int) {
    function Dx(): int { maxX - minX }
    function Dy(): int { maxY - minY }
    predicate Contains(x: int, y: int) { minX <= x < maxX && minY <= y < maxY }
    predicate WellFormed() { minX <= maxX && minY <= maxY }
  }

  /** A rectangle from two corners, in either order. */
  function MakeRect(x0: int, y0: int, x1: int, y1: int): (r: Rect)
    ensures r.WellFormed()
  {
    Rect(if x0 > x1 then x1 else x0, if y0 > y1 then y1 else y0,
         if x0 > x1 then x0 else x1, if y0 > y1 then y0 else y1)
  }

  function TileRect(b: Rect, g: nat, index: nat): Rect
    requires g > 0 && b.WellFormed()
  {
    var col, row := index % g, index / g;
    MakeRect(b.minX + col * b.Dx() / g, b.minY + row * b.Dy() / g,
             b.minX + (col + 1) * b.Dx() / g, b.minY + (row + 1) * b.Dy() / g)
  }

  /** Where the `k`-th of `g` columns (or rows) of a side of length `w` begins. */
  function Edge(w: nat, g: nat, k: nat): (e: nat)
    requires g > 0
  {
    k * w / g
  }

  lemma DivAtLeast(a: int, g: nat, q: int)
    requires g > 0 && a >= q * g
    ensures a / g >= q
  {
    if a / g <= q - 1 {
      MulMonotone(a / g + 1, q, g);
    }
  }

  lemma DivBelow(a: int, g: nat, q: int)
    requires g > 0 && a < q * g
    ensures a / g < q
  {
    if a / g >= q {
      MulMonotone(q, a / g, g);
    }
  }

  lemma MulMonotone(a: int, b: int, g: nat)
    requires a <= b
    ensures a * g <= b * g
  {
    assert (b - a) * g >= 0;
  }

  lemma EdgeEnds(w: nat, g: nat)
    requires g > 0
    ensures Edge(w, g, 0) == 0 && Edge(w, g, g) == w
  {
    DivAtLeast(g * w, g, w);
    DivBelow(g * w, g, w + 1);
  }

  lemma EdgeStep(w: nat, g: nat, k: nat)
    requires g > 0
    ensures Edge(w, g, k) <= Edge(w, g, k + 1)
    ensures w >= g ==> Edge(w, g, k) < Edge(w, g, k + 1)
  {
    var q := k * w / g;
    assert (k + 1) * w == k * w + w && k * w >= q * g;
    DivAtLeast((k + 1) * w, g, q);
    if w >= g {
      assert (k + 1) * w >= (q + 1) * g;
      DivAtLeast((k + 1) * w, g, q + 1);
    }
  }

  lemma {:induction false} EdgeMonotone(w: nat, g: nat, j: nat, k: nat)
    requires g > 0 && j <= k
    ensures Edge(w, g, j) <= Edge(w, g, k)
  {
    if j < k {
      EdgeMonotone(w, g, j, k - 1);
      EdgeStep(w, g, k - 1);
    }
  }

  /** The column (or row) that `x` falls into. */
  function {:induction false} Strip(w: nat, g: nat, x: nat, k: nat): (c: nat)
    requires g > 0 && k <= g && x < Edge(w, g, k)
    ensures c < k && Edge(w, g, c) <= x < Edge(w, g, c + 1)
  {
    EdgeEnds(w, g);
    if x >= Edge(w, g, k - 1) then k - 1 else Strip(w, g, x, k - 1)
  }

  lemma StripUnique(w: nat, g: nat, x: nat, c: nat, d: nat)
    requires g > 0
    requires Edge(w, g, c) <= x < Edge(w, g, c + 1) && Edge(w, g, d) <= x < Edge(w, g, d + 1)
    ensures c == d
  {
    if c < d {
      EdgeMonotone(w, g, c + 1, d);
    } else if d < c {
      EdgeMonotone(w, g, d + 1, c);
    }
  }

  lemma MultipleInside(d: int, g: int)
    requires -g < d * g < g
    ensures d == 0
  {
  }

  lemma DivModUnique(a: nat, g: nat, p: int, q: int, m: int, n: int)
    requires 0 <= m < g && 0 <= n < g && p * g + m == a == q * g + n
    ensures p == q && m == n
  {
    assert (p - q) * g == n - m;
    MultipleInside(p - q, g);
  }

  lemma GridIndex(g: nat, row: nat, col: nat)
    requires col < g
    ensures (row * g + col) % g == col && (row * g + col) / g == row
  {
    var a := row * g + col;
    DivModUnique(a, g, a / g, row, a % g, col);
  }

  lemma GridSplit(g: nat, index: nat)
    requires g > 0 && index < g * g
    ensures index % g < g && index / g < g && index == index / g * g + index % g
  {
    DivBelow(index, g, g);
  }

  /** It begins at the last pixel that `k` of `g` equal parts reach. */
  lemma EdgeIs(w: nat, g: nat, k: nat, e: nat)
    requires g > 0
    ensures Edge(w, g, k) == e <==> e * g <= k * w < (e + 1) * g
  {
    FloorIs(k * w, g, e);
  }

  lemma FloorIs(a: nat, g: nat, q: nat)
    requires g > 0
    ensures a / g == q <==> q * g <= a < (q + 1) * g
  {
    if q * g <= a < (q + 1) * g {
      DivAtLeast(a, g, q);
      DivBelow(a, g, q + 1);
    }
  }

  /** A tile in terms of its edges. */
  lemma TileEdges(b: Rect, g: nat, index: nat, row: nat, col: nat)
    requires g > 0 && b.WellFormed() && row < g && col < g && index == row * g + col
    ensures TileRect(b, g, index) ==
      Rect(b.minX + Edge(b.Dx(), g, col), b.minY + Edge(b.Dy(), g, row),
           b.minX + Edge(b.Dx(), g, col + 1), b.minY + Edge(b.Dy(), g, row + 1))
  {
    GridIndex(g, row, col);
    EdgeStep(b.Dx(), g, col);
    EdgeStep(b.Dy(), g, row);
  }

  /** The tile that shows a pixel. */
  function TileAt(b: Rect, g: nat, x: int, y: int): nat
    requires g > 0 && b.Contains(x, y)
  {
    EdgeEnds(b.Dx(), g);
    EdgeEnds(b.Dy(), g);
    Strip(b.Dy(), g, y - b.minY, g) * g + Strip(b.Dx(), g, x - b.minX, g)
  }

  lemma IndexInGrid(g: nat, row: nat, col: nat)
    requires row < g && col < g
    ensures row * g + col < g * g
  {
    MulMonotone(row + 1, g, g);
  }

  /** The g * g tiles partition the image: each lies within it, and each pixel is in
      exactly one of them, whatever the size. */
  lemma TilesPartition(b: Rect, g: nat, index: nat, x: int, y: int)
    requires g > 0 && b.WellFormed() && index < g * g
    ensures TileRect(b, g, index).Contains(x, y) <==> b.Contains(x, y) && index == TileAt(b, g, x, y)
    ensures b.Contains(x, y) ==> TileAt(b, g, x, y) < g * g
  {
    GridSplit(g, index);
    var row, col := index / g, index % g;
    var w, h := b.Dx(), b.Dy();
    TileEdges(b, g, index, row, col);
    EdgeEnds(w, g);
    EdgeEnds(h, g);
    EdgeMonotone(w, g, col + 1, g);
    EdgeMonotone(h, g, row + 1, g);
    if b.Contains(x, y) {
      var c, r := Strip(w, g, x - b.minX, g), Strip(h, g, y - b.minY, g);
      IndexInGrid(g, r, c);
      GridIndex(g, r, c);
      if TileRect(b, g, index).Contains(x, y) {
        StripUnique(w, g, x - b.minX, c, col);
        StripUnique(h, g, y - b.minY, r, row);
      }
    }
  }

  /** Tiles are empty only if the image is smaller than the grid. */
  lemma TilesNotEmpty(b: Rect, g: nat, index: nat)
    requires g > 0 && b.WellFormed() && b.Dx() >= g && b.Dy() >= g && index < g * g
    ensures TileRect(b, g, index).Dx() >= 1 && TileRect(b, g, index).Dy() >= 1
  {
    GridSplit(g, index);
    TileEdges(b, g, index, index / g, index % g);
    EdgeStep(b.Dx(), g, index % g);
    EdgeStep(b.Dy(), g, index / g);
  }
}
