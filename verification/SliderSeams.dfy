/** The luma seam score of client/captcha_v2_slider.go: how much the pixels differ
    along the seams of a rearranged puzzle. */
module SliderSeams {
  import opened SliderTiles

  // ---------- pixels ----------

  /** 16 bits per channel. */
  datatype Color = Color(r: nat, g: nat, b: nat) {
    predicate Valid() { r < 0x1_0000 && g < 0x1_0000 && b < 0x1_0000 }
  }

  /** `at` is defined everywhere: outside its bounds an image has no colour, not a
      fault. */
  datatype Image = Image(bounds: Rect, at: (int, int) -> Color) {
    ghost predicate Valid() { bounds.WellFormed() && forall x: int, y: int :: at(x, y).Valid() }
  }

  function Luma(c: Color): (y: nat)
    requires c.Valid()
    ensures y <= 255
  {
    var r, g, b := c.r / 256, c.g / 256, c.b / 256;
    assert r <= 255 && g <= 255 && b <= 255;
    (299 * r + 587 * g + 114 * b) / 1000
  }

  /** Luma is the greatest number of thousandths 299 r + 587 g + 114 b of the three high
      bytes does not fall short of, so a grey keeps its value. */
  lemma LumaWeights(c: Color, r: nat, g: nat, b: nat, y: nat)
    requires c.Valid() && 256 * r <= c.r < 256 * (r + 1)
    requires 256 * g <= c.g < 256 * (g + 1) && 256 * b <= c.b < 256 * (b + 1)
    ensures Luma(c) == y <==> 1000 * y <= 299 * r + 587 * g + 114 * b < 1000 * (y + 1)
    ensures r == g == b ==> Luma(c) == r
  {
    assert c.r / 256 == r && c.g / 256 == g && c.b / 256 == b;
  }

  datatype Point = Point(x: int, y: int)

  function AtLeastOne(n: int): (m: int)
    ensures m >= 1
  {
    if n < 1 then 1 else n
  }

  /** Which source pixel is shown at a pixel of the destination tile. */
  function Sample(dst: Rect, src: Rect, x: int, y: int): Point {
    Point(src.minX + (x - dst.minX) * src.Dx() / AtLeastOne(dst.Dx()),
          src.minY + (y - dst.minY) * src.Dy() / AtLeastOne(dst.Dy()))
  }

  function AbsDiff(a: int, b: int): (d: nat)
    ensures d == a - b || d == b - a
  {
    if a < b then b - a else a - b
  }

  // ---------- adding up seams, wherever they are ----------

  /** Two neighbouring tiles, and a source pixel shown on each side of their seam. */
  datatype Pair = Pair(left: nat, right: nat, a: Point, b: Point)

  /** For the seam right of tile (row, col), or below it: how many pairs of pixels face
      each other across it, and which. */
  datatype Seams = Seams(g: nat, len: (nat, nat, bool) -> nat, pair: (nat, nat, bool, nat) -> Pair)

  /** The first `n` pairs of a seam. */
  function Seam(s: Seams, row: nat, col: nat, across: bool, n: nat): (pairs: seq<Pair>)
    ensures |pairs| == n
  {
    if n == 0 then [] else Seam(s, row, col, across, n - 1) + [s.pair(row, col, across, n - 1)]
  }

  /** The first `cols` seams of a row: those within it, or those below it. */
  function RowSeams(s: Seams, row: nat, across: bool, cols: nat): seq<Pair> {
    if cols == 0 then []
    else RowSeams(s, row, across, cols - 1) + Seam(s, row, cols - 1, across, s.len(row, cols - 1, across))
  }

  function GridSeams(s: Seams, across: bool, rows: nat, cols: nat): seq<Pair> {
    if rows == 0 then [] else GridSeams(s, across, rows - 1, cols) + RowSeams(s, rows - 1, across, cols)
  }

  /** Every pair of pixels a score compares. */
  function AllPairs(s: Seams): seq<Pair>
    requires s.g > 0
  {
    GridSeams(s, true, s.g, s.g - 1) + GridSeams(s, false, s.g - 1, s.g)
  }

  function Total(diff: Pair -> nat, pairs: seq<Pair>): nat {
    if pairs == [] then 0 else Total(diff, pairs[..|pairs| - 1]) + diff(pairs[|pairs| - 1])
  }

  lemma {:induction false} TotalJoined(diff: Pair -> nat, a: seq<Pair>, b: seq<Pair>, both: seq<Pair>)
    requires both == a + b
    ensures Total(diff, both) == Total(diff, a) + Total(diff, b)
  {
    if b == [] {
      assert both == a;
    } else {
      TotalJoined(diff, a, b[..|b| - 1], both[..|both| - 1]);
    }
  }

  /** The nested loops over rows and columns, and along each seam. */
  method SumGrid(s: Seams, diff: Pair -> nat, across: bool, rows: nat, cols: nat, start: nat) returns (score: nat)
    ensures score == start + Total(diff, GridSeams(s, across, rows, cols))
  {
    score := start;
    for row := 0 to rows
      invariant score == start + Total(diff, GridSeams(s, across, row, cols))
    {
      score := SumRow(s, diff, row, across, cols, score);
      TotalJoined(diff, GridSeams(s, across, row, cols), RowSeams(s, row, across, cols),
                  GridSeams(s, across, row + 1, cols));
    }
  }

  method SumRow(s: Seams, diff: Pair -> nat, row: nat, across: bool, cols: nat, start: nat) returns (score: nat)
    ensures score == start + Total(diff, RowSeams(s, row, across, cols))
  {
    score := start;
    for col := 0 to cols
      invariant score == start + Total(diff, RowSeams(s, row, across, col))
    {
      var n := s.len(row, col, across);
      score := SumSeam(s, diff, row, col, across, n, score);
      TotalJoined(diff, RowSeams(s, row, across, col), Seam(s, row, col, across, n),
                  RowSeams(s, row, across, col + 1));
    }
  }

  method SumSeam(s: Seams, diff: Pair -> nat, row: nat, col: nat, across: bool, n: nat, start: nat) returns (score: nat)
    ensures score == start + Total(diff, Seam(s, row, col, across, n))
  {
    score := start;
    for k := 0 to n
      invariant score == start + Total(diff, Seam(s, row, col, across, k))
    {
      var p := s.pair(row, col, across, k);
      score := score + diff(p);
      assert Seam(s, row, col, across, k + 1)[..k] == Seam(s, row, col, across, k);
    }
  }

  /** Looking in one list or the other for something that is in both joined. */
  lemma InEither(p: Pair, a: seq<Pair>, b: seq<Pair>, both: seq<Pair>) returns (first: bool)
    requires both == a + b && p in both
    ensures if first then p in a else p in b
  {
    first := p in a;
  }

  lemma {:induction false} SeamMember(s: Seams, row: nat, col: nat, across: bool, n: nat, p: Pair) returns (k: nat)
    requires p in Seam(s, row, col, across, n)
    ensures k < n && p == s.pair(row, col, across, k)
  {
    if p == s.pair(row, col, across, n - 1) {
      k := n - 1;
    } else {
      k := SeamMember(s, row, col, across, n - 1, p);
    }
  }

  lemma {:induction false} RowMember(s: Seams, row: nat, across: bool, cols: nat, pairs: seq<Pair>, p: Pair)
    returns (col: nat, k: nat)
    requires pairs == RowSeams(s, row, across, cols) && p in pairs
    ensures col < cols && k < s.len(row, col, across) && p == s.pair(row, col, across, k)
  {
    var before, n := RowSeams(s, row, across, cols - 1), s.len(row, cols - 1, across);
    var earlier := InEither(p, before, Seam(s, row, cols - 1, across, n), pairs);
    if earlier {
      col, k := RowMember(s, row, across, cols - 1, before, p);
    } else {
      col := cols - 1;
      k := SeamMember(s, row, col, across, n, p);
    }
  }

  /** Every pair listed belongs to some seam. */
  lemma {:induction false} GridMember(s: Seams, across: bool, rows: nat, cols: nat, pairs: seq<Pair>, p: Pair)
    returns (row: nat, col: nat, k: nat)
    requires pairs == GridSeams(s, across, rows, cols) && p in pairs
    ensures row < rows && col < cols && k < s.len(row, col, across) && p == s.pair(row, col, across, k)
  {
    var before, last := GridSeams(s, across, rows - 1, cols), RowSeams(s, rows - 1, across, cols);
    var earlier := InEither(p, before, last, pairs);
    if earlier {
      row, col, k := GridMember(s, across, rows - 1, cols, before, p);
    } else {
      row := rows - 1;
      col, k := RowMember(s, row, across, cols, last, p);
    }
  }

  lemma PairMember(s: Seams, p: Pair) returns (row: nat, col: nat, across: bool, k: nat)
    requires s.g > 0 && p in AllPairs(s)
    ensures if across then row < s.g && col < s.g - 1 else row < s.g - 1 && col < s.g
    ensures k < s.len(row, col, across) && p == s.pair(row, col, across, k)
  {
    var within, between := GridSeams(s, true, s.g, s.g - 1), GridSeams(s, false, s.g - 1, s.g);
    across := InEither(p, within, between, AllPairs(s));
    if across {
      row, col, k := GridMember(s, true, s.g, s.g - 1, within, p);
    } else {
      row, col, k := GridMember(s, false, s.g - 1, s.g, between, p);
    }
  }

  /** A seam within row `row` is as long as the row is high; one below column `col`,
      as the column is wide. `edge` says where rows (or columns) begin. */
  predicate LongAs(s: Seams, edge: nat -> int, row: nat, col: nat, across: bool) {
    s.len(row, col, across) == (if across then edge(row + 1) - edge(row) else edge(col + 1) - edge(col))
  }

  lemma Product(k: nat, a: int, b: int)
    ensures k * a + k * (b - a) == k * b
  {
  }

  lemma {:induction false} RowCount(s: Seams, edge: nat -> int, row: nat, cols: nat)
    requires forall col: nat :: col < cols ==> LongAs(s, edge, row, col, true)
    ensures |RowSeams(s, row, true, cols)| == cols * (edge(row + 1) - edge(row))
  {
    if cols > 0 {
      RowCount(s, edge, row, cols - 1);
      assert LongAs(s, edge, row, cols - 1, true);
      var h := edge(row + 1) - edge(row);
      assert (cols - 1) * h + h == cols * h;
    }
  }

  /** Seams within rows: every row has its own height. */
  lemma {:induction false} AcrossCount(s: Seams, edge: nat -> int, rows: nat, cols: nat)
    requires edge(0) == 0
    requires forall row: nat, col: nat :: row < rows && col < cols ==> LongAs(s, edge, row, col, true)
    ensures |GridSeams(s, true, rows, cols)| == cols * edge(rows)
  {
    if rows > 0 {
      AcrossCount(s, edge, rows - 1, cols);
      RowCount(s, edge, rows - 1, cols);
      Product(cols, edge(rows - 1), edge(rows));
    }
  }

  lemma {:induction false} GapCount(s: Seams, edge: nat -> int, row: nat, cols: nat)
    requires edge(0) == 0
    requires forall col: nat :: col < cols ==> LongAs(s, edge, row, col, false)
    ensures |RowSeams(s, row, false, cols)| == edge(cols)
  {
    if cols > 0 {
      GapCount(s, edge, row, cols - 1);
      assert LongAs(s, edge, row, cols - 1, false);
    }
  }

  /** Seams between rows: each gap is as long as the image is wide. */
  lemma {:induction false} DownCount(s: Seams, edge: nat -> int, rows: nat, cols: nat)
    requires edge(0) == 0
    requires forall row: nat, col: nat :: row < rows && col < cols ==> LongAs(s, edge, row, col, false)
    ensures |GridSeams(s, false, rows, cols)| == rows * edge(cols)
  {
    if rows > 0 {
      DownCount(s, edge, rows - 1, cols);
      GapCount(s, edge, rows - 1, cols);
      var w := edge(cols);
      assert (rows - 1) * w + w == rows * w;
    }
  }

  lemma {:induction false} TotalBounded(diff: Pair -> nat, pairs: seq<Pair>, top: nat)
    requires forall p :: diff(p) <= top
    ensures Total(diff, pairs) <= top * |pairs|
  {
    if pairs != [] {
      TotalBounded(diff, pairs[..|pairs| - 1], top);
    }
  }

  // ---------- the puzzle's seams ----------

  /** The image's rectangle, the grid, and the tile shown at each place of it. */
  datatype Layout = Layout(b: Rect, g: nat, mapping: seq<int>) {
    predicate Valid() {
      && g > 0 && b.WellFormed() && |mapping| == g * g
      && forall i :: 0 <= i < g * g ==> 0 <= mapping[i] < g * g
    }
  }

  predicate HasSeam(g: nat, row: nat, col: nat, across: bool) {
    if across then row < g && col + 1 < g else row + 1 < g && col < g
  }

  function Index(g: nat, row: nat, col: nat): (i: nat)
    requires row < g && col < g
    ensures i < g * g
  {
    IndexInGrid(g, row, col);
    row * g + col
  }

  /** The other side of a seam. */
  function Other(g: nat, row: nat, col: nat, across: bool): (j: nat)
    requires HasSeam(g, row, col, across)
    ensures j < g * g
  {
    if across then Index(g, row, col + 1) else Index(g, row + 1, col)
  }

  function Min(a: int, b: int): int { if b < a then b else a }

  function SeamLength(l: Layout, row: nat, col: nat, across: bool): (n: nat)
    requires l.Valid() && HasSeam(l.g, row, col, across)
  {
    var one := TileRect(l.b, l.g, Index(l.g, row, col));
    var two := TileRect(l.b, l.g, Other(l.g, row, col, across));
    if across then Min(one.Dy(), two.Dy()) else Min(one.Dx(), two.Dx())
  }

  /** Pair `k` of a seam: the last column (or row) of the first tile against the first
      of the second, each taken from the tile that is shown there. */
  function PairAt(l: Layout, row: nat, col: nat, across: bool, k: nat): Pair
    requires l.Valid() && HasSeam(l.g, row, col, across)
  {
    var i, j := Index(l.g, row, col), Other(l.g, row, col, across);
    var one, two := TileRect(l.b, l.g, i), TileRect(l.b, l.g, j);
    var oneSrc, twoSrc := TileRect(l.b, l.g, l.mapping[i]), TileRect(l.b, l.g, l.mapping[j]);
    if across then
      var yy := one.minY + k;
      Pair(i, j, Sample(one, oneSrc, one.maxX - 1, yy), Sample(two, twoSrc, two.minX, yy))
    else
      var xx := one.minX + k;
      Pair(i, j, Sample(one, oneSrc, xx, one.maxY - 1), Sample(two, twoSrc, xx, two.minY))
  }

  const NO_PAIR := Pair(0, 0, Point(0, 0), Point(0, 0))

  function SeamsOf(l: Layout): (s: Seams)
    requires l.Valid()
    ensures s.g == l.g
  {
    Seams(l.g,
          (row: nat, col: nat, across: bool) =>
            if HasSeam(l.g, row, col, across) then SeamLength(l, row, col, across) else 0,
          (row: nat, col: nat, across: bool, k: nat) =>
            if HasSeam(l.g, row, col, across) then PairAt(l, row, col, across, k) else NO_PAIR)
  }

  /** The luma difference of a pair of pixels. */
  function Difference(img: Image, p: Pair): (d: nat)
    requires img.Valid()
    ensures d <= 255
  {
    AbsDiff(Luma(img.at(p.a.x, p.a.y)), Luma(img.at(p.b.x, p.b.y)))
  }

  function Differences(img: Image): (diff: Pair -> nat)
    requires img.Valid()
    ensures forall p :: diff(p) <= 255
  {
    p => Difference(img, p)
  }

  /** The luma score is the total of the differences over exactly the pairs of the
      puzzle's seams. */
  method SeamScoreLuma(img: Image, l: Layout) returns (score: nat)
    requires img.Valid() && l.Valid() && l.b == img.bounds
    ensures score == Total(Differences(img), AllPairs(SeamsOf(l)))
  {
    var s, diff := SeamsOf(l), Differences(img);
    score := SumBoth(s, diff);
  }

  lemma BothTotals(s: Seams, diff: Pair -> nat, g: nat, m: nat)
    requires s.g == g == m + 1
    ensures Total(diff, AllPairs(s)) == Total(diff, GridSeams(s, true, g, m)) + Total(diff, GridSeams(s, false, m, g))
  {
    TotalJoined(diff, GridSeams(s, true, g, m), GridSeams(s, false, m, g), AllPairs(s));
  }

  method SumBoth(s: Seams, diff: Pair -> nat) returns (score: nat)
    requires s.g > 0
    ensures score == Total(diff, AllPairs(s))
  {
    var g, m := s.g, s.g - 1;
    score := SumGrid(s, diff, true, g, m, 0);
    score := SumGrid(s, diff, false, m, g, score);
    BothTotals(s, diff, g, m);
  }

  // ---------- every sample is inside its tile ----------

  predicate Adjacent(g: nat, i: nat, j: nat)
    requires g > 0
  {
    (j == i + 1 && i / g == j / g) || j == i + g
  }

  /** Both pixels of a pair lie in the tiles shown at the two neighbours. */
  ghost predicate GoodPair(l: Layout, p: Pair)
    requires l.Valid()
  {
    && p.left < l.g * l.g && p.right < l.g * l.g && Adjacent(l.g, p.left, p.right)
    && TileRect(l.b, l.g, l.mapping[p.left]).Contains(p.a.x, p.a.y)
    && TileRect(l.b, l.g, l.mapping[p.right]).Contains(p.b.x, p.b.y)
  }

  lemma Scaled(d: nat, n: nat, m: nat)
    requires d < n && m >= 1
    ensures 0 <= d * m / n < m
  {
    MulMonotone(d + 1, n, m);
    DivAtLeast(d * m, n, 0);
    DivBelow(d * m, n, m);
  }

  /** A pixel `dx` to the right and `dy` below the corner of its tile shows the pixel that
      much further on in the other, in proportion to the sizes and rounded down. */
  lemma SampleInProportion(dst: Rect, src: Rect, dx: nat, dy: nat, a: nat, b: nat)
    requires dst.Contains(dst.minX + dx, dst.minY + dy) && src.WellFormed()
    ensures Sample(dst, src, dst.minX + dx, dst.minY + dy) == Point(src.minX + a, src.minY + b) <==>
      && a * dst.Dx() <= dx * src.Dx() < (a + 1) * dst.Dx()
      && b * dst.Dy() <= dy * src.Dy() < (b + 1) * dst.Dy()
  {
    FloorIs(dx * src.Dx(), dst.Dx(), a);
    FloorIs(dy * src.Dy(), dst.Dy(), b);
  }

  lemma SampleInside(dst: Rect, src: Rect, x: int, y: int)
    requires dst.Contains(x, y) && src.Dx() >= 1 && src.Dy() >= 1
    ensures var p := Sample(dst, src, x, y); src.Contains(p.x, p.y)
  {
    Scaled(x - dst.minX, dst.Dx(), src.Dx());
    Scaled(y - dst.minY, dst.Dy(), src.Dy());
  }

  /** The grid is no finer than the image. */
  predicate Coarse(l: Layout) { l.b.Dx() >= l.g && l.b.Dy() >= l.g }

  lemma AcrossPairGood(l: Layout, row: nat, col: nat, k: nat)
    requires l.Valid() && Coarse(l) && HasSeam(l.g, row, col, true) && k < SeamLength(l, row, col, true)
    ensures GoodPair(l, PairAt(l, row, col, true, k))
  {
    var i, j := Index(l.g, row, col), Index(l.g, row, col + 1);
    TileEdges(l.b, l.g, i, row, col);
    TileEdges(l.b, l.g, j, row, col + 1);
    TilesNotEmpty(l.b, l.g, i);
    TilesNotEmpty(l.b, l.g, j);
    TilesNotEmpty(l.b, l.g, l.mapping[i]);
    TilesNotEmpty(l.b, l.g, l.mapping[j]);
    var one, two := TileRect(l.b, l.g, i), TileRect(l.b, l.g, j);
    SampleInside(one, TileRect(l.b, l.g, l.mapping[i]), one.maxX - 1, one.minY + k);
    SampleInside(two, TileRect(l.b, l.g, l.mapping[j]), two.minX, one.minY + k);
    GridIndex(l.g, row, col);
    GridIndex(l.g, row, col + 1);
  }

  lemma DownPairGood(l: Layout, row: nat, col: nat, k: nat)
    requires l.Valid() && Coarse(l) && HasSeam(l.g, row, col, false) && k < SeamLength(l, row, col, false)
    ensures GoodPair(l, PairAt(l, row, col, false, k))
  {
    var i, j := Index(l.g, row, col), Index(l.g, row + 1, col);
    TileEdges(l.b, l.g, i, row, col);
    TileEdges(l.b, l.g, j, row + 1, col);
    TilesNotEmpty(l.b, l.g, i);
    TilesNotEmpty(l.b, l.g, j);
    TilesNotEmpty(l.b, l.g, l.mapping[i]);
    TilesNotEmpty(l.b, l.g, l.mapping[j]);
    var one, two := TileRect(l.b, l.g, i), TileRect(l.b, l.g, j);
    SampleInside(one, TileRect(l.b, l.g, l.mapping[i]), one.minX + k, one.maxY - 1);
    SampleInside(two, TileRect(l.b, l.g, l.mapping[j]), one.minX + k, two.minY);
  }

  lemma SeamPairGood(l: Layout, s: Seams, row: nat, col: nat, across: bool, k: nat)
    requires l.Valid() && Coarse(l) && s == SeamsOf(l)
    requires HasSeam(l.g, row, col, across) && k < s.len(row, col, across)
    ensures GoodPair(l, s.pair(row, col, across, k))
  {
    if across {
      AcrossPairGood(l, row, col, k);
    } else {
      DownPairGood(l, row, col, k);
    }
  }

  /** If the image is at least as wide and high as the grid, every pixel the score
      looks at lies inside the tile shown there. */
  lemma EverySampleInside(l: Layout, s: Seams, p: Pair)
    requires l.Valid() && Coarse(l) && s == SeamsOf(l) && p in AllPairs(s)
    ensures GoodPair(l, p)
  {
    var row, col, across, k := PairMember(s, p);
    SeamPairGood(l, s, row, col, across, k);
  }

  // ---------- how many pairs there are ----------

  lemma SeamLengths(l: Layout, row: nat, col: nat, across: bool)
    requires l.Valid() && HasSeam(l.g, row, col, across)
    ensures SeamLength(l, row, col, across) ==
      if across then Edge(l.b.Dy(), l.g, row + 1) - Edge(l.b.Dy(), l.g, row)
      else Edge(l.b.Dx(), l.g, col + 1) - Edge(l.b.Dx(), l.g, col)
  {
    TileEdges(l.b, l.g, Index(l.g, row, col), row, col);
    if across {
      TileEdges(l.b, l.g, Index(l.g, row, col + 1), row, col + 1);
    } else {
      TileEdges(l.b, l.g, Index(l.g, row + 1, col), row + 1, col);
    }
  }

  lemma SeamLongAs(l: Layout, s: Seams, edge: nat -> int, row: nat, col: nat, across: bool)
    requires l.Valid() && s == SeamsOf(l) && HasSeam(l.g, row, col, across)
    requires forall k: nat :: edge(k) == Edge(if across then l.b.Dy() else l.b.Dx(), l.g, k)
    ensures LongAs(s, edge, row, col, across)
  {
    SeamLengths(l, row, col, across);
  }

  lemma AllAcrossLong(l: Layout, s: Seams, edge: nat -> int)
    requires l.Valid() && s == SeamsOf(l)
    requires forall k: nat :: edge(k) == Edge(l.b.Dy(), l.g, k)
    ensures forall row: nat, col: nat :: row < l.g && col < l.g - 1 ==> LongAs(s, edge, row, col, true)
  {
    forall row: nat, col: nat | row < l.g && col < l.g - 1
      ensures LongAs(s, edge, row, col, true)
    {
      SeamLongAs(l, s, edge, row, col, true);
    }
  }

  lemma AllDownLong(l: Layout, s: Seams, edge: nat -> int)
    requires l.Valid() && s == SeamsOf(l)
    requires forall k: nat :: edge(k) == Edge(l.b.Dx(), l.g, k)
    ensures forall row: nat, col: nat :: row < l.g - 1 && col < l.g ==> LongAs(s, edge, row, col, false)
  {
    forall row: nat, col: nat | row < l.g - 1 && col < l.g
      ensures LongAs(s, edge, row, col, false)
    {
      SeamLongAs(l, s, edge, row, col, false);
    }
  }

  lemma GridsCounted(s: Seams, tall: nat -> int, wide: nat -> int, h: int, w: int)
    requires s.g > 0 && tall(0) == wide(0) == 0 && tall(s.g) == h && wide(s.g) == w
    requires forall row: nat, col: nat :: row < s.g && col < s.g - 1 ==> LongAs(s, tall, row, col, true)
    requires forall row: nat, col: nat :: row < s.g - 1 && col < s.g ==> LongAs(s, wide, row, col, false)
    ensures |AllPairs(s)| == (s.g - 1) * (w + h)
  {
    AcrossCount(s, tall, s.g, s.g - 1);
    DownCount(s, wide, s.g - 1, s.g);
    Distribute(s.g - 1, h, w);
  }

  /** A score compares exactly (g - 1)(W + H) pairs of pixels, whatever the mapping. */
  lemma PairsCounted(l: Layout, s: Seams)
    requires l.Valid() && s == SeamsOf(l)
    ensures |AllPairs(s)| == (l.g - 1) * (l.b.Dx() + l.b.Dy())
  {
    var tall, wide := (k: nat) => Edge(l.b.Dy(), l.g, k), (k: nat) => Edge(l.b.Dx(), l.g, k);
    EdgeEnds(l.b.Dy(), l.g);
    EdgeEnds(l.b.Dx(), l.g);
    AllAcrossLong(l, s, tall);
    AllDownLong(l, s, wide);
    GridsCounted(s, tall, wide, l.b.Dy(), l.b.Dx());
  }

  lemma Distribute(k: int, a: int, b: int)
    ensures k * a + k * b == k * (b + a)
  {
  }

  /** So it is at most 255 times as much. */
  lemma ScoreBounded(img: Image, l: Layout, s: Seams)
    requires img.Valid() && l.Valid() && l.b == img.bounds && s == SeamsOf(l)
    ensures Total(Differences(img), AllPairs(s)) <= 255 * ((l.g - 1) * (l.b.Dx() + l.b.Dy()))
  {
    PairsCounted(l, s);
    TotalBounded(Differences(img), AllPairs(s), 255);
  }
}
