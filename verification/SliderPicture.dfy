/** What the seam score means (client/captcha_v2_slider.go): in the picture that shows the
    tiles rearranged, the luma differences of all pixels that face each other across the
    edges of the grid, added up. */
module SliderPicture {
  import opened SliderTiles
  import opened SliderSeams

  // ---------- adding up along lines ----------

  /** The first `n` values on line `c`. */
  function Along(f: (nat, nat) -> nat, c: nat, n: nat): nat { if n == 0 then 0 else Along(f, c, n - 1) + f(c, n - 1) }

  /** The first `n` values on each of the lines 1 to `m`. */
  function Lines(f: (nat, nat) -> nat, m: nat, n: nat): nat { if m == 0 then 0 else Lines(f, m - 1, n) + Along(f, m,
                 n) }

  /** What a pair contributes is the value on its line at its place. */
  predicate OnLine(s: Seams, diff: Pair -> nat, f: (nat, nat) -> nat, line: nat, start: nat, row: nat, col: nat,
                   across: bool, k: nat) {
    diff(s.pair(row, col, across, k)) == f(line, start + k)
  }

  lemma SeamNext(s: Seams, diff: Pair -> nat, f: (nat, nat) -> nat, line: nat, start: nat, row: nat, col: nat,
                 across: bool, k: nat, at: nat)
    requires Total(diff, Seam(s, row, col, across, k)) + Along(f, line, start) == Along(f, line, at)
    requires OnLine(s, diff, f, line, start, row, col, across, k) && at == start + k
    ensures Total(diff, Seam(s, row, col, across, k + 1)) + Along(f, line, start) == Along(f, line, at + 1)
  {
    assert Seam(s, row, col, across, k + 1)[..k] == Seam(s, row, col, across, k);
  }

  lemma {:induction false} SeamTotal(s: Seams, diff: Pair -> nat, f: (nat, nat) -> nat, line: nat, start: nat, row: nat,
                                     col: nat, across: bool, n: nat, end: nat)
    requires forall k: nat :: k < n ==> OnLine(s, diff, f, line, start, row, col, across, k)
    requires end == start + n
    ensures Total(diff, Seam(s, row, col, across, n)) + Along(f, line, start) == Along(f, line, end)
  {
    if n > 0 {
      var k, at := n - 1, end - 1;
      SeamTotal(s, diff, f, line, start, row, col, across, k, at);
      SeamNext(s, diff, f, line, start, row, col, across, k, at);
    }
  }

  /** The seam lies on a line from `start` to `end`, pair by pair. */
  ghost predicate Fits(s: Seams, diff: Pair -> nat, f: (nat, nat) -> nat, line: nat, start: nat, end: nat, row: nat,
                       col: nat, across: bool) {
    && start + s.len(row, col, across) == end
    && forall k: nat :: k < end - start ==> OnLine(s, diff, f, line, start, row, col, across, k)
  }

  lemma RowNext(s: Seams, diff: Pair -> nat, f: (nat, nat) -> nat, line: nat, start: nat, end: nat, row: nat, col: nat,
                across: bool)
    requires Fits(s, diff, f, line, start, end, row, col, across)
    ensures Total(diff, RowSeams(s, row, across, col + 1)) + Along(f, line, start) ==
      Total(diff, RowSeams(s, row, across, col)) + Along(f, line, end)
  {
    var n := end - start;
    SeamTotal(s, diff, f, line, start, row, col, across, n, end);
    TotalJoined(diff, RowSeams(s, row, across, col), Seam(s, row, col, across, n), RowSeams(s, row, across, col + 1));
  }

  /** Column edge `col + 1` along the height of row `row`; `edge` says where rows begin. */
  ghost predicate FitsAcross(s: Seams, diff: Pair -> nat, f: (nat, nat) -> nat, edge: nat -> nat, row: nat, col: nat) {
    Fits(s, diff, f, col + 1, edge(row), edge(row + 1), row, col, true)
  }

  /** Row edge `row + 1` along the width of column `col`; `edge` says where columns begin. */
  ghost predicate FitsDown(s: Seams, diff: Pair -> nat, f: (nat, nat) -> nat, edge: nat -> nat, row: nat, col: nat) {
    Fits(s, diff, f, row + 1, edge(col), edge(col + 1), row, col, false)
  }

  /** The first `cols` seams within a row fit. */
  ghost predicate RowFits(s: Seams, diff: Pair -> nat, f: (nat, nat) -> nat, edge: nat -> nat, row: nat, cols: nat) {
    cols == 0 || (RowFits(s, diff, f, edge, row, cols - 1) && FitsAcross(s, diff, f, edge, row, cols - 1))
  }

  /** The seams within the first `rows` rows fit. */
  ghost predicate GridFits(s: Seams, diff: Pair -> nat, f: (nat, nat) -> nat, edge: nat -> nat, rows: nat, cols: nat) {
    rows == 0 || (GridFits(s, diff, f, edge, rows - 1, cols) && RowFits(s, diff, f, edge, rows - 1, cols))
  }

  /** The first `cols` seams below a row fit. */
  ghost predicate GapFits(s: Seams, diff: Pair -> nat, f: (nat, nat) -> nat, edge: nat -> nat, row: nat, cols: nat) {
    cols == 0 || (GapFits(s, diff, f, edge, row, cols - 1) && FitsDown(s, diff, f, edge, row, cols - 1))
  }

  /** The seams below the first `rows` rows fit. */
  ghost predicate GapsFit(s: Seams, diff: Pair -> nat, f: (nat, nat) -> nat, edge: nat -> nat, rows: nat, cols: nat) {
    rows == 0 || (GapsFit(s, diff, f, edge, rows - 1, cols) && GapFits(s, diff, f, edge, rows - 1, cols))
  }

  lemma {:induction false} RowAcross(s: Seams, diff: Pair -> nat, f: (nat, nat) -> nat, edge: nat -> nat, row: nat,
                                     cols: nat, start: nat, end: nat)
    requires start == edge(row) && end == edge(row + 1) && RowFits(s, diff, f, edge, row, cols)
    ensures Total(diff, RowSeams(s, row, true, cols)) + Lines(f, cols, start) == Lines(f, cols, end)
  {
    if cols > 0 {
      RowAcross(s, diff, f, edge, row, cols - 1, start, end);
      RowNext(s, diff, f, cols, start, end, row, cols - 1, true);
    }
  }

  lemma {:induction false} NothingYet(f: (nat, nat) -> nat, m: nat)
    ensures Lines(f, m, 0) == 0
  {
    if m > 0 {
      NothingYet(f, m - 1);
    }
  }

  lemma GridNext(s: Seams, diff: Pair -> nat, across: bool, row: nat, cols: nat)
    ensures Total(diff, GridSeams(s, across, row + 1, cols)) ==
      Total(diff, GridSeams(s, across, row, cols)) + Total(diff, RowSeams(s, row, across, cols))
  {
    TotalJoined(diff, GridSeams(s, across, row, cols), RowSeams(s, row, across, cols),
                GridSeams(s, across, row + 1, cols));
  }

  lemma {:induction false} GridAcross(s: Seams, diff: Pair -> nat, f: (nat, nat) -> nat, edge: nat -> nat, rows: nat,
                                      cols: nat, end: nat)
    requires edge(0) == 0 && end == edge(rows) && GridFits(s, diff, f, edge, rows, cols)
    ensures Total(diff, GridSeams(s, true, rows, cols)) == Lines(f, cols, end)
  {
    if rows == 0 {
      NothingYet(f, cols);
    } else {
      var row := rows - 1;
      var start := edge(row);
      GridAcross(s, diff, f, edge, row, cols, start);
      RowAcross(s, diff, f, edge, row, cols, start, end);
      GridNext(s, diff, true, row, cols);
    }
  }

  lemma {:induction false} GapDown(s: Seams, diff: Pair -> nat, f: (nat, nat) -> nat, edge: nat -> nat, row: nat,
                                   cols: nat, end: nat)
    requires edge(0) == 0 && end == edge(cols) && GapFits(s, diff, f, edge, row, cols)
    ensures Total(diff, RowSeams(s, row, false, cols)) == Along(f, row + 1, end)
  {
    if cols > 0 {
      var start := edge(cols - 1);
      GapDown(s, diff, f, edge, row, cols - 1, start);
      RowNext(s, diff, f, row + 1, start, end, row, cols - 1, false);
    }
  }

  lemma {:induction false} GridDown(s: Seams, diff: Pair -> nat, f: (nat, nat) -> nat, edge: nat -> nat, rows: nat,
                                    cols: nat, end: nat)
    requires edge(0) == 0 && end == edge(cols) && GapsFit(s, diff, f, edge, rows, cols)
    ensures Total(diff, GridSeams(s, false, rows, cols)) == Lines(f, rows, end)
  {
    if rows > 0 {
      var row := rows - 1;
      GridDown(s, diff, f, edge, row, cols, end);
      GapDown(s, diff, f, edge, row, cols, end);
      GridNext(s, diff, false, row, cols);
    }
  }

  // ---------- the rearranged picture ----------

  /** The image's pixel that the rearranged picture shows at a place. */
  function Picture(l: Layout, x: int, y: int): Point
    requires l.Valid()
  {
    if !l.b.Contains(x, y) then Point(x, y)
    else
      var i := TileAt(l.b, l.g, x, y);
      TilesPartition(l.b, l.g, 0, x, y);
      Sample(TileRect(l.b, l.g, i), TileRect(l.b, l.g, l.mapping[i]), x, y)
  }

  lemma PictureIn(l: Layout, i: nat, x: int, y: int)
    requires l.Valid() && i < l.g * l.g && TileRect(l.b, l.g, i).Contains(x, y)
    ensures Picture(l, x, y) == Sample(TileRect(l.b, l.g, i), TileRect(l.b, l.g, l.mapping[i]), x, y)
  {
    TilesPartition(l.b, l.g, i, x, y);
  }

  /** Tiles of one size are moved pixel by pixel. */
  lemma SampleShifts(dst: Rect, src: Rect, x: int, y: int)
    requires dst.Contains(x, y) && src.Dx() == dst.Dx() && src.Dy() == dst.Dy()
    ensures Sample(dst, src, x, y) == Point(x + src.minX - dst.minX, y + src.minY - dst.minY)
  {
    WholeQuotient(x - dst.minX, dst.Dx());
    WholeQuotient(y - dst.minY, dst.Dy());
  }

  lemma WholeQuotient(a: nat, n: nat)
    requires n > 0
    ensures a * n / n == a
  {
    DivAtLeast(a * n, n, a);
    DivBelow(a * n, n, a + 1);
  }

  /** An image that is not rearranged is shown as it is. */
  lemma UnmovedPicture(l: Layout, x: int, y: int)
    requires l.Valid() && l.mapping == Identity(l.g * l.g) && l.b.Contains(x, y)
    ensures Picture(l, x, y) == Point(x, y)
  {
    var i := TileAt(l.b, l.g, x, y);
    TilesPartition(l.b, l.g, 0, x, y);
    TilesPartition(l.b, l.g, i, x, y);
    SampleShifts(TileRect(l.b, l.g, i), TileRect(l.b, l.g, i), x, y);
  }

  function LumaAt(img: Image, p: Point): nat
    requires img.Valid()
  {
    Luma(img.at(p.x, p.y))
  }

  /** The difference across column edge `c` in the `k`-th row of pixels. */
  function BesideAt(img: Image, l: Layout, c: nat, k: nat): nat
    requires img.Valid() && l.Valid()
  {
    var x, y := l.b.minX + Edge(l.b.Dx(), l.g, c), l.b.minY + k;
    AbsDiff(LumaAt(img, Picture(l, x - 1, y)), LumaAt(img, Picture(l, x, y)))
  }

  /** The difference across row edge `r` in the `k`-th column of pixels. */
  function BelowAt(img: Image, l: Layout, r: nat, k: nat): nat
    requires img.Valid() && l.Valid()
  {
    var x, y := l.b.minX + k, l.b.minY + Edge(l.b.Dy(), l.g, r);
    AbsDiff(LumaAt(img, Picture(l, x, y - 1)), LumaAt(img, Picture(l, x, y)))
  }

  function Beside(img: Image, l: Layout): (nat, nat) -> nat
    requires img.Valid() && l.Valid()
  {
    (c: nat, k: nat) => BesideAt(img, l, c, k)
  }

  function Below(img: Image, l: Layout): (nat, nat) -> nat
    requires img.Valid() && l.Valid()
  {
    (r: nat, k: nat) => BelowAt(img, l, r, k)
  }

  lemma AcrossShown(l: Layout, row: nat, col: nat, k: nat, x: int, y: int)
    requires l.Valid() && Coarse(l) && HasSeam(l.g, row, col, true) && k < SeamLength(l, row, col, true)
    requires x == l.b.minX + Edge(l.b.Dx(), l.g, col + 1) && y == l.b.minY + Edge(l.b.Dy(), l.g, row) + k
    ensures PairAt(l, row, col, true, k).a == Picture(l, x - 1, y)
    ensures PairAt(l, row, col, true, k).b == Picture(l, x, y)
  {
    var i, j := Index(l.g, row, col), Index(l.g, row, col + 1);
    TileEdges(l.b, l.g, i, row, col);
    TileEdges(l.b, l.g, j, row, col + 1);
    TilesNotEmpty(l.b, l.g, i);
    TilesNotEmpty(l.b, l.g, j);
    PictureIn(l, i, x - 1, y);
    PictureIn(l, j, x, y);
  }

  lemma DownShown(l: Layout, row: nat, col: nat, k: nat, x: int, y: int)
    requires l.Valid() && Coarse(l) && HasSeam(l.g, row, col, false) && k < SeamLength(l, row, col, false)
    requires x == l.b.minX + Edge(l.b.Dx(), l.g, col) + k && y == l.b.minY + Edge(l.b.Dy(), l.g, row + 1)
    ensures PairAt(l, row, col, false, k).a == Picture(l, x, y - 1)
    ensures PairAt(l, row, col, false, k).b == Picture(l, x, y)
  {
    var i, j := Index(l.g, row, col), Index(l.g, row + 1, col);
    TileEdges(l.b, l.g, i, row, col);
    TileEdges(l.b, l.g, j, row + 1, col);
    TilesNotEmpty(l.b, l.g, i);
    TilesNotEmpty(l.b, l.g, j);
    PictureIn(l, i, x, y - 1);
    PictureIn(l, j, x, y);
  }

  // ---------- the score ----------

  function Edges(w: nat, g: nat): (edge: nat -> nat)
    requires g > 0
    ensures (forall k: nat :: edge(k) == Edge(w, g, k)) && edge(0) == 0 && edge(g) == w
  {
    EdgeEnds(w, g);
    k => Edge(w, g, k)
  }

  lemma SeamIs(l: Layout, s: Seams, row: nat, col: nat, across: bool)
    requires l.Valid() && s == SeamsOf(l) && HasSeam(l.g, row, col, across)
    ensures s.len(row, col, across) == SeamLength(l, row, col, across)
    ensures forall k: nat :: s.pair(row, col, across, k) == PairAt(l, row, col, across, k)
  {
  }

  lemma BesidePair(img: Image, l: Layout, row: nat, col: nat, k: nat, at: nat)
    requires img.Valid() && l.Valid() && Coarse(l) && at == Edge(l.b.Dy(), l.g, row) + k
    requires HasSeam(l.g, row, col, true) && k < SeamLength(l, row, col, true)
    ensures Difference(img, PairAt(l, row, col, true, k)) == BesideAt(img, l, col + 1, at)
  {
    AcrossShown(l, row, col, k, l.b.minX + Edge(l.b.Dx(), l.g, col + 1), l.b.minY + at);
  }

  lemma BelowPair(img: Image, l: Layout, row: nat, col: nat, k: nat, at: nat)
    requires img.Valid() && l.Valid() && Coarse(l) && at == Edge(l.b.Dx(), l.g, col) + k
    requires HasSeam(l.g, row, col, false) && k < SeamLength(l, row, col, false)
    ensures Difference(img, PairAt(l, row, col, false, k)) == BelowAt(img, l, row + 1, at)
  {
    DownShown(l, row, col, k, l.b.minX + at, l.b.minY + Edge(l.b.Dy(), l.g, row + 1));
  }

  lemma OnBeside(img: Image, l: Layout, s: Seams, diff: Pair -> nat, f: (nat, nat) -> nat, row: nat, col: nat,
                 line: nat, start: nat, across: bool, n: nat, k: nat)
    requires img.Valid() && l.Valid() && Coarse(l) && s == SeamsOf(l) && HasSeam(l.g, row, col, across) && across
    requires diff == Differences(img) && f == Beside(img, l) && n == s.len(row, col, across) && k < n
    requires line == col + 1 && start == Edge(l.b.Dy(), l.g, row)
    ensures OnLine(s, diff, f, line, start, row, col, across, k)
  {
    SeamIs(l, s, row, col, true);
    BesidePair(img, l, row, col, k, start + k);
  }

  lemma OnBelow(img: Image, l: Layout, s: Seams, diff: Pair -> nat, f: (nat, nat) -> nat, row: nat, col: nat,
                line: nat, start: nat, across: bool, n: nat, k: nat)
    requires img.Valid() && l.Valid() && Coarse(l) && s == SeamsOf(l) && HasSeam(l.g, row, col, across) && !across
    requires diff == Differences(img) && f == Below(img, l) && n == s.len(row, col, across) && k < n
    requires line == row + 1 && start == Edge(l.b.Dx(), l.g, col)
    ensures OnLine(s, diff, f, line, start, row, col, across, k)
  {
    SeamIs(l, s, row, col, false);
    BelowPair(img, l, row, col, k, start + k);
  }

  lemma SeamBeside(img: Image, l: Layout, s: Seams, diff: Pair -> nat, f: (nat, nat) -> nat, row: nat, col: nat,
                   line: nat, start: nat, across: bool, n: nat)
    requires img.Valid() && l.Valid() && Coarse(l) && s == SeamsOf(l) && HasSeam(l.g, row, col, across) && across
    requires diff == Differences(img) && f == Beside(img, l) && n == s.len(row, col, across)
    requires line == col + 1 && start == Edge(l.b.Dy(), l.g, row)
    ensures forall k: nat :: k < n ==> OnLine(s, diff, f, line, start, row, col, across, k)
  {
    forall k: nat | k < n
      ensures OnLine(s, diff, f, line, start, row, col, across, k)
    {
      OnBeside(img, l, s, diff, f, row, col, line, start, across, n, k);
    }
  }

  lemma SeamBelow(img: Image, l: Layout, s: Seams, diff: Pair -> nat, f: (nat, nat) -> nat, row: nat, col: nat,
                  line: nat, start: nat, across: bool, n: nat)
    requires img.Valid() && l.Valid() && Coarse(l) && s == SeamsOf(l) && HasSeam(l.g, row, col, across) && !across
    requires diff == Differences(img) && f == Below(img, l) && n == s.len(row, col, across)
    requires line == row + 1 && start == Edge(l.b.Dx(), l.g, col)
    ensures forall k: nat :: k < n ==> OnLine(s, diff, f, line, start, row, col, across, k)
  {
    forall k: nat | k < n
      ensures OnLine(s, diff, f, line, start, row, col, across, k)
    {
      OnBelow(img, l, s, diff, f, row, col, line, start, across, n, k);
    }
  }

  lemma SeamLong(l: Layout, s: Seams, row: nat, col: nat, across: bool, start: nat, end: nat)
    requires l.Valid() && s == SeamsOf(l) && HasSeam(l.g, row, col, across)
    requires start == (if across then Edge(l.b.Dy(), l.g, row) else Edge(l.b.Dx(), l.g, col))
    requires end == (if across then Edge(l.b.Dy(), l.g, row + 1) else Edge(l.b.Dx(), l.g, col + 1))
    ensures start + s.len(row, col, across) == end
  {
    SeamIs(l, s, row, col, across);
    SeamLengths(l, row, col, across);
  }

  lemma FitsBeside(img: Image, l: Layout, s: Seams, diff: Pair -> nat, f: (nat, nat) -> nat, edge: nat -> nat,
                   row: nat, col: nat)
    requires img.Valid() && l.Valid() && Coarse(l) && s == SeamsOf(l) && HasSeam(l.g, row, col, true)
    requires diff == Differences(img) && f == Beside(img, l) && edge == Edges(l.b.Dy(), l.g)
    ensures FitsAcross(s, diff, f, edge, row, col)
  {
    SeamLong(l, s, row, col, true, edge(row), edge(row + 1));
    SeamBeside(img, l, s, diff, f, row, col, col + 1, edge(row), true, edge(row + 1) - edge(row));
  }

  lemma FitsBelow(img: Image, l: Layout, s: Seams, diff: Pair -> nat, f: (nat, nat) -> nat, edge: nat -> nat,
                  row: nat, col: nat)
    requires img.Valid() && l.Valid() && Coarse(l) && s == SeamsOf(l) && HasSeam(l.g, row, col, false)
    requires diff == Differences(img) && f == Below(img, l) && edge == Edges(l.b.Dx(), l.g)
    ensures FitsDown(s, diff, f, edge, row, col)
  {
    SeamLong(l, s, row, col, false, edge(col), edge(col + 1));
    SeamBelow(img, l, s, diff, f, row, col, row + 1, edge(col), false, edge(col + 1) - edge(col));
  }

  lemma {:induction false} RowBeside(img: Image, l: Layout, s: Seams, diff: Pair -> nat, f: (nat, nat) -> nat,
                                     edge: nat -> nat, row: nat, cols: nat)
    requires img.Valid() && l.Valid() && Coarse(l) && s == SeamsOf(l) && row < l.g && cols < l.g
    requires diff == Differences(img) && f == Beside(img, l) && edge == Edges(l.b.Dy(), l.g)
    ensures RowFits(s, diff, f, edge, row, cols)
  {
    if cols > 0 {
      var col := cols - 1;
      RowBeside(img, l, s, diff, f, edge, row, col);
      FitsBeside(img, l, s, diff, f, edge, row, col);
    }
  }

  lemma {:induction false} AllBeside(img: Image, l: Layout, s: Seams, diff: Pair -> nat, f: (nat, nat) -> nat,
                                     edge: nat -> nat, rows: nat, cols: nat)
    requires img.Valid() && l.Valid() && Coarse(l) && s == SeamsOf(l) && rows <= l.g && cols < l.g
    requires diff == Differences(img) && f == Beside(img, l) && edge == Edges(l.b.Dy(), l.g)
    ensures GridFits(s, diff, f, edge, rows, cols)
  {
    if rows > 0 {
      var row := rows - 1;
      AllBeside(img, l, s, diff, f, edge, row, cols);
      RowBeside(img, l, s, diff, f, edge, row, cols);
    }
  }

  lemma {:induction false} GapBelow(img: Image, l: Layout, s: Seams, diff: Pair -> nat, f: (nat, nat) -> nat,
                                    edge: nat -> nat, row: nat, cols: nat)
    requires img.Valid() && l.Valid() && Coarse(l) && s == SeamsOf(l) && row + 1 < l.g && cols <= l.g
    requires diff == Differences(img) && f == Below(img, l) && edge == Edges(l.b.Dx(), l.g)
    ensures GapFits(s, diff, f, edge, row, cols)
  {
    if cols > 0 {
      var col := cols - 1;
      GapBelow(img, l, s, diff, f, edge, row, col);
      FitsBelow(img, l, s, diff, f, edge, row, col);
    }
  }

  lemma {:induction false} AllBelow(img: Image, l: Layout, s: Seams, diff: Pair -> nat, f: (nat, nat) -> nat,
                                    edge: nat -> nat, rows: nat, cols: nat)
    requires img.Valid() && l.Valid() && Coarse(l) && s == SeamsOf(l) && rows < l.g && cols <= l.g
    requires diff == Differences(img) && f == Below(img, l) && edge == Edges(l.b.Dx(), l.g)
    ensures GapsFit(s, diff, f, edge, rows, cols)
  {
    if rows > 0 {
      var row := rows - 1;
      AllBelow(img, l, s, diff, f, edge, row, cols);
      GapBelow(img, l, s, diff, f, edge, row, cols);
    }
  }

  lemma AcrossScore(img: Image, l: Layout, s: Seams, diff: Pair -> nat, f: (nat, nat) -> nat, g: nat, m: nat, h: nat)
    requires img.Valid() && l.Valid() && Coarse(l) && s == SeamsOf(l) && g == l.g == m + 1 && h == l.b.Dy()
    requires diff == Differences(img) && f == Beside(img, l)
    ensures Total(diff, GridSeams(s, true, g, m)) == Lines(f, m, h)
  {
    var edge := Edges(h, g);
    AllBeside(img, l, s, diff, f, edge, g, m);
    GridAcross(s, diff, f, edge, g, m, h);
  }

  lemma DownScore(img: Image, l: Layout, s: Seams, diff: Pair -> nat, f: (nat, nat) -> nat, g: nat, m: nat, w: nat)
    requires img.Valid() && l.Valid() && Coarse(l) && s == SeamsOf(l) && g == l.g == m + 1 && w == l.b.Dx()
    requires diff == Differences(img) && f == Below(img, l)
    ensures Total(diff, GridSeams(s, false, m, g)) == Lines(f, m, w)
  {
    var edge := Edges(w, g);
    AllBelow(img, l, s, diff, f, edge, m, g);
    GridDown(s, diff, f, edge, m, g, w);
  }

  /** If the image is at least as wide and high as the grid, its seam score is what the
      rearranged picture differs along the inner column edges over its whole height and
      along the inner row edges over its whole width. */
  lemma ScoreOfPicture(img: Image, l: Layout, s: Seams, m: nat)
    requires img.Valid() && l.Valid() && Coarse(l) && l.b == img.bounds && s == SeamsOf(l) && l.g == m + 1
    ensures Total(Differences(img), AllPairs(s)) ==
      Lines(Beside(img, l), m, l.b.Dy()) + Lines(Below(img, l), m, l.b.Dx())
  {
    var diff, across, down := Differences(img), Beside(img, l), Below(img, l);
    AcrossScore(img, l, s, diff, across, l.g, m, l.b.Dy());
    DownScore(img, l, s, diff, down, l.g, m, l.b.Dx());
    BothTotals(s, diff, l.g, m);
  }
}
