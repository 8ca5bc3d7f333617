module PixLayout {
  /**
   The layout of the block map in packages/fragview/pixmap.go: pixLayoutFor, the pixel spans of its tiles, and
   resolveHover, which turns a mouse position back into blocks.
   */
  import opened Basics

  const MAX_TILE_ASPECT: nat := 2

  datatype Layout = Layout(
    pxW: nat, cellW: nat, cellH: nat, mapRows: nat, tileRows: nat, rowSpan: nat, blocksPerRow: nat, blockPx: nat,
    perCol: nat, inset: nat)

  function CeilDiv(x: nat, n: nat): nat
    requires n > 0
  {
    (x + n - 1) / n
  }

  lemma CeilEnough(x: nat, n: nat)
    requires n > 0
    ensures CeilDiv(x, n) * n >= x && (x > 0 ==> CeilDiv(x, n) * n <= x + n - 1)
  {
    var q := CeilDiv(x, n);
    assert q * n <= x + n - 1 < q * n + n;
  }

  /** The least number of rows of `n` that is enough is no more than any that is. */
  lemma CeilLeast(x: nat, n: nat, q: nat)
    requires n > 0 && q * n >= x
    ensures CeilDiv(x, n) <= q
  {
    var c := CeilDiv(x, n);
    CeilEnough(x, n);
    if c > q {
      MulBounds(c - q, n);
      MulAdds(c - q, q, n);
    }
  }

  /** What the layout promises: slots for every block, within the rows there are, and tiles at least a pixel wide unless
      several blocks share a column. */
  predicate Good(l: Layout, span: nat) {
    && l.rowSpan >= 1 && l.tileRows >= 1 && l.blocksPerRow >= 1
    && l.tileRows * l.rowSpan <= l.mapRows
    && l.tileRows * l.blocksPerRow >= span
    && (if l.perCol > 0 then l.blockPx == 0 && l.rowSpan == 1 && l.blocksPerRow == l.perCol * l.pxW
        else l.blockPx >= 1 && l.blockPx == l.pxW / l.blocksPerRow && l.blocksPerRow <= l.pxW)
  }

  /** Of `m` map rows, one more row per tile leaves no fewer than a third of the tile rows. */
  lemma TileRowsThird(m: nat, r: nat)
    requires r >= 1 && m / r > 1
    ensures m / (r + 1) >= 1 && m / r <= 3 * (m / (r + 1))
  {
    var t, t' := m / r, m / (r + 1);
    UpToDiv(m, r, 2);
    UpToDiv(m, r + 1, 1);
    UpToDiv(m, r, 3 * t' + 1);
    UpToDiv(m, r + 1, t' + 1);
    ThirdArith(t', r);
  }

  lemma ThirdArith(q: nat, r: nat)
    requires r >= 1
    ensures q >= 1 ==> (3 * q + 1) * r >= (q + 1) * (r + 1)
  {
    var p := q * r;
    assert (3 * q + 1) * r == 3 * p + r;
    assert (q + 1) * (r + 1) == p + q + r + 1;
    AtLeast(q, r);
  }

  lemma AtLeast(q: nat, r: nat)
    requires r >= 1
    ensures q * r >= q
  {
  }

  /** Going to one more row per tile from tiles more than two pixels wide leaves them at least one wide. */
  lemma StillAPixel(span: nat, pxW: nat, t: nat, t': nat)
    requires t >= 1 && t' >= 1 && t <= 3 * t'
    requires pxW / Max(CeilDiv(span, t), 1) > 2
    ensures Max(CeilDiv(span, t'), 1) <= pxW
  {
    var b := Max(CeilDiv(span, t), 1);
    CeilEnough(span, t);
    UpToDiv(pxW, b, 3);
    Thrice(b, t, t', span);
    CeilLeast(span, t', 3 * b);
  }

  lemma Thrice(b: nat, t: nat, t': nat, span: nat)
    requires b >= 1 && t <= 3 * t' && b * t >= span
    ensures 3 * b * t' >= span
  {
    var d := 3 * t' - t;
    MulAdds(t, d, b);
  }

  /** The first row span tried is one row: every row then has room for its blocks. */
  lemma OneRowFits(span: nat, pxW: nat, t: nat)
    requires t >= 1 && Max(CeilDiv(span, t), 1) <= pxW
    ensures pxW / Max(CeilDiv(span, t), 1) >= 1 && t * Max(CeilDiv(span, t), 1) >= span
  {
    var b := Max(CeilDiv(span, t), 1);
    UpToDiv(pxW, b, 1);
    CeilEnough(span, t);
    MulAdds(CeilDiv(span, t), b - CeilDiv(span, t), t);
    MulBounds(b - CeilDiv(span, t), t);
  }

  lemma RowsWithin(m: nat, r: nat)
    requires r >= 1
    ensures m / r * r <= m && (r <= m ==> m / r >= 1)
  {
    UpToDiv(m, r, m / r);
    UpToDiv(m, r, 1);
  }

  /** With `r` terminal rows to a row of tiles the tiles would be strips, and fewer rows of tiles can still be had. */
  predicate Strips(span: nat, pxW: nat, cellH: nat, mapRows: nat, r: nat)
    requires 1 <= r <= mapRows
  {
    RowsWithin(mapRows, r);
    mapRows / r != 1 && pxW / Max(CeilDiv(span, mapRows / r), 1) > MAX_TILE_ASPECT * r * cellH
  }

  /** pixLayoutFor. The row span is the least that keeps tiles from being strips, no more blocks share a column than
      have to, and the inset never takes more than half of a tile's width. */
  method PixLayoutFor(span: nat, pxW: nat, cellW: nat, cellH: nat, mapRows: nat) returns (l: Layout)
    requires pxW >= 1 && cellH >= 1 && mapRows >= 1
    ensures 1 <= l.rowSpan <= mapRows && Good(l, span) && l.pxW == pxW && l.cellW == cellW && l.cellH == cellH &&
            l.mapRows == mapRows
    ensures l.perCol > 0 <==> CeilDiv(span, mapRows) > pxW
    ensures l.perCol == 0 ==>
              && l.tileRows == mapRows / l.rowSpan && l.blocksPerRow == Max(CeilDiv(span, l.tileRows), 1)
              && !Strips(span, pxW, cellH, mapRows, l.rowSpan)
              && forall r :: 1 <= r < l.rowSpan ==> Strips(span, pxW, cellH, mapRows, r)
    ensures l.perCol > 0 ==> l.tileRows == mapRows && (l.perCol - 1) * pxW < CeilDiv(span, mapRows)
    ensures l.inset <= 2 && 4 * l.inset <= l.blockPx && (l.inset == 2 <==> l.blockPx >= 8 && l.rowSpan * cellH >= 12)
    ensures l.inset == 0 <==> l.blockPx < 4
  {
    var perRow := Max(CeilDiv(span, mapRows), 1);
    CeilEnough(span, mapRows);
    if perRow > pxW {
      var perCol := CeilDiv(perRow, pxW);
      CeilEnough(perRow, pxW);
      SlotsAcross(span, mapRows, perRow, perCol * pxW);
      MulAdds(perCol - 1, 1, pxW);
      return Layout(pxW, cellW, cellH, mapRows, mapRows, 1, perCol * pxW, 0, perCol, 0);
    }
    var rowSpan, tileRows, blocksPerRow, blockPx := 1, mapRows, perRow, 0;
    while rowSpan <= mapRows
      invariant 1 <= rowSpan <= mapRows
      invariant Max(CeilDiv(span, mapRows / rowSpan), 1) <= pxW
      invariant forall r :: 1 <= r < rowSpan ==> Strips(span, pxW, cellH, mapRows, r)
      decreases mapRows - rowSpan
    {
      RowsWithin(mapRows, rowSpan);
      tileRows := mapRows / rowSpan;
      blocksPerRow := Max(CeilDiv(span, tileRows), 1);
      blockPx := pxW / blocksPerRow;
      OneRowFits(span, pxW, tileRows);
      if blockPx <= MAX_TILE_ASPECT * rowSpan * cellH || tileRows == 1 {
        break;
      }
      AspectAboveTwo(rowSpan, cellH);
      TileRowsThird(mapRows, rowSpan);
      StillAPixel(span, pxW, tileRows, mapRows / (rowSpan + 1));
      UpToDiv(mapRows, rowSpan + 1, 1);
      rowSpan := rowSpan + 1;
    }
    var h := rowSpan * cellH;
    var inset := if blockPx >= 8 && h >= 12 then 2 else if blockPx >= 4 then 1 else 0;
    return Layout(pxW, cellW, cellH, mapRows, tileRows, rowSpan, blocksPerRow, blockPx, 0, inset);
  }

  lemma AspectAboveTwo(r: nat, cellH: nat)
    requires r >= 1 && cellH >= 1
    ensures MAX_TILE_ASPECT * r * cellH >= 2
  {
    AtLeast(r, cellH);
  }

  lemma SlotsAcross(span: nat, rows: nat, perRow: nat, slots: nat)
    requires perRow * rows >= span && slots >= perRow
    ensures rows * slots >= span
  {
    MulAdds(perRow, slots - perRow, rows);
  }

  // ----- the tiles of a row -----

  /** blockSpan. */
  function BlockSpan(l: Layout, j: nat): (int, int)
    requires l.blocksPerRow >= 1
  {
    (j * l.pxW / l.blocksPerRow, (j + 1) * l.pxW / l.blocksPerRow - 1)
  }

  /** rowSpanY. */
  function RowSpanY(l: Layout, t: nat): (int, int) { (t * l.rowSpan * l.cellH, (t + 1) * l.rowSpan * l.cellH - 1) }

  /** The tiles of a row follow one another without a gap and end at the right edge, and their widths differ by at most
      one pixel: each is the width divided among them, or one more. */
  lemma SpansPartition(l: Layout, span: nat, j: nat)
    requires Good(l, span) && j < l.blocksPerRow
    ensures BlockSpan(l, 0).0 == 0 && BlockSpan(l, l.blocksPerRow - 1).1 == l.pxW - 1
    ensures j + 1 < l.blocksPerRow ==> BlockSpan(l, j + 1).0 == BlockSpan(l, j).1 + 1
    ensures var width := BlockSpan(l, j).1 - BlockSpan(l, j).0 + 1;
            l.pxW / l.blocksPerRow <= width <= l.pxW / l.blocksPerRow + 1
  {
    var b, w := l.blocksPerRow, l.pxW;
    FullDiv(w, b);
    MulAdds(j, 1, w);
    MulNonneg(j, w);
    assert (j + 1) * w == j * w + w;
    DivStep(j * w, w, b);
  }

  lemma FullDiv(w: nat, b: nat)
    requires b >= 1
    ensures b * w / b == w
  {
    UpToDiv(b * w, b, w);
    UpToDiv(b * w, b, w + 1);
  }

  /** Adding `w` before dividing adds the quotient of `w`, or one more. */
  lemma DivStep(x: nat, w: nat, b: nat)
    requires b >= 1
    ensures x / b + w / b <= (x + w) / b <= x / b + w / b + 1
  {
    var p, q := x / b, w / b;
    UpToDiv(x, b, p);
    UpToDiv(w, b, q);
    UpToDiv(x, b, p + 1);
    UpToDiv(w, b, q + 1);
    UpToDiv(x + w, b, p + q);
    UpToDiv(x + w, b, p + q + 2);
    MulAdds(p, q, b);
    MulAdds(p + 1, q + 1, b);
  }

  // ----- the mouse -----

  /** The tile resolveHover takes a pixel column to be in. */
  function Resolve(l: Layout, p: nat): nat
    requires l.pxW >= 1
  {
    p * l.blocksPerRow / l.pxW
  }

  /** Every pixel of a tile but the first resolves to that tile. */
  lemma InnerPixelResolves(l: Layout, span: nat, j: nat, p: nat)
    requires Good(l, span) && l.pxW >= 1 && j < l.blocksPerRow && BlockSpan(l, j).0 < p <= BlockSpan(l, j).1
    ensures Resolve(l, p) == j
  {
    var b, w := l.blocksPerRow, l.pxW;
    UpToDiv(j * w, b, p);
    UpToDiv((j + 1) * w, b, p + 1);
    MulAdds(p, 1, b);
    UpToDiv(p * b, w, j);
    UpToDiv(p * b, w, j + 1);
  }

  /** The first pixel of a tile resolves to it exactly when the tile begins on a whole pixel; otherwise to the tile
      before it. */
  lemma FirstPixelResolves(l: Layout, span: nat, j: nat, p: nat)
    requires Good(l, span) && l.perCol == 0 && j < l.blocksPerRow && p == BlockSpan(l, j).0
    ensures Resolve(l, p) == if j * l.pxW % l.blocksPerRow == 0 then j else j - 1
  {
    StartsBefore(l.blocksPerRow, l.pxW, j, p, j * l.pxW % l.blocksPerRow);
  }

  lemma StartsBefore(b: nat, w: nat, j: nat, p: nat, r: nat)
    requires j * w == p * b + r && r < b <= w
    ensures p * b / w == if r == 0 then j else j - 1
  {
    MulNonneg(p, b);
    MulAdds(j, 1, w);
    MulAdds(j, -1, w);
    UpToDiv(p * b, w, j);
    UpToDiv(p * b, w, j + 1);
    if r != 0 {
      assert j != 0;
      UpToDiv(p * b, w, j - 1);
    }
  }

  /** The terminal row of the mouse lies in the tile row it is resolved to. */
  lemma RowResolves(l: Layout, span: nat, row: nat)
    requires Good(l, span) && l.cellH >= 1
    ensures l.rowSpan * l.cellH >= 1
    ensures var t := row * l.cellH / (l.rowSpan * l.cellH);
            RowSpanY(l, t).0 <= row * l.cellH <= RowSpanY(l, t).1
  {
    var y, h := row * l.cellH, l.rowSpan * l.cellH;
    AtLeast(l.rowSpan, l.cellH);
    var t := y / h;
    UpToDiv(y, h, t);
    UpToDiv(y, h, t + 1);
    Reassoc(t, l.rowSpan, l.cellH);
    Reassoc(t + 1, l.rowSpan, l.cellH);
  }

  lemma Reassoc(a: int, b: int, c: int)
    ensures a * b * c == a * (b * c)
  {
  }

  /** The rows of tiles follow one another from the top of the picture without a gap, each as high as its terminal rows,
      and end within it. */
  lemma RowsPartition(l: Layout, span: nat, t: nat)
    requires Good(l, span) && l.cellH >= 1 && t < l.tileRows
    ensures RowSpanY(l, 0).0 == 0 && RowSpanY(l, t + 1).0 == RowSpanY(l, t).1 + 1
    ensures RowSpanY(l, t).1 - RowSpanY(l, t).0 + 1 == l.rowSpan * l.cellH >= l.cellH
    ensures RowSpanY(l, t).1 < l.mapRows * l.cellH
  {
    Reassoc(t, l.rowSpan, l.cellH);
    Reassoc(t + 1, l.rowSpan, l.cellH);
    MulAdds(t, 1, l.rowSpan * l.cellH);
    AtLeast(l.cellH, l.rowSpan);
    MulAdds(t + 1, l.tileRows - t - 1, l.rowSpan);
    MulNonneg(l.tileRows - t - 1, l.rowSpan);
    MulAdds((t + 1) * l.rowSpan, l.mapRows - (t + 1) * l.rowSpan, l.cellH);
    MulNonneg(l.mapRows - (t + 1) * l.rowSpan, l.cellH);
  }

  /** A pixel row is resolved to the row of tiles whose span it lies in. */
  lemma RowIff(l: Layout, y: nat, t: nat)
    requires l.rowSpan * l.cellH >= 1
    ensures y / (l.rowSpan * l.cellH) == t <==> RowSpanY(l, t).0 <= y <= RowSpanY(l, t).1
  {
    UpToDiv(y, l.rowSpan * l.cellH, t);
    UpToDiv(y, l.rowSpan * l.cellH, t + 1);
    Reassoc(t, l.rowSpan, l.cellH);
    Reassoc(t + 1, l.rowSpan, l.cellH);
  }

  /** The pixel lies in tile `j` of its row; but where a tile begins within a pixel, that pixel is the tile before's. */
  predicate Probed(l: Layout, j: nat, p: int)
    requires l.blocksPerRow >= 1
  {
    || BlockSpan(l, j).0 < p <= BlockSpan(l, j).1
    || (p == BlockSpan(l, j).0 && j * l.pxW % l.blocksPerRow == 0)
    || (p == BlockSpan(l, j).1 + 1 && (j + 1) * l.pxW % l.blocksPerRow != 0)
  }

  /** A pixel column of the picture is resolved to just that tile. */
  lemma ProbedIff(l: Layout, span: nat, j: nat, p: nat)
    requires Good(l, span) && l.perCol == 0 && j < l.blocksPerRow && p < l.pxW
    ensures Resolve(l, p) == j <==> Probed(l, j, p)
  {
    SpansPartition(l, span, j);
    if BlockSpan(l, j).0 < p <= BlockSpan(l, j).1 {
      InnerPixelResolves(l, span, j, p);
    } else if p == BlockSpan(l, j).0 {
      FirstPixelResolves(l, span, j, p);
    } else if p == BlockSpan(l, j).1 + 1 {
      FirstPixelResolves(l, span, j + 1, p);
    } else if Resolve(l, p) == j {
      ResolvedNear(l, j, p);
    }
  }

  lemma ResolvedNear(l: Layout, j: nat, p: nat)
    requires l.blocksPerRow >= 1 && l.pxW >= 1 && Resolve(l, p) == j
    ensures BlockSpan(l, j).0 <= p <= BlockSpan(l, j).1 + 1
  {
    var b, w := l.blocksPerRow, l.pxW;
    UpToDiv(p * b, w, j);
    UpToDiv(p * b, w, j + 1);
    UpToDiv(j * w, b, p + 1);
    UpToDiv((j + 1) * w, b, p);
    MulAdds(p, 1, b);
  }

  const MAP_LABEL: int := 6

  /** The pixel lies in tile `j` of its row, past the tile's first column. */
  predicate Inside(l: Layout, j: nat, p: int)
    requires l.blocksPerRow >= 1
  {
    BlockSpan(l, j).0 < p <= BlockSpan(l, j).1
  }

  /** The block is painted in one of the columns of the cell that begins at pixel `x`. */
  predicate Under(l: Layout, j: nat, x: int)
    requires l.perCol > 0
  {
    x <= j / l.perCol < x + l.cellW
  }

  /** The blocks under a cell are those from its first column's first to its last column's last. */
  lemma ColumnOf(l: Layout, j: nat, x: nat)
    requires l.perCol > 0 && j < l.perCol * l.pxW
    ensures x * l.perCol <= j < Min(x + l.cellW, l.pxW) * l.perCol <==> Under(l, j, x)
  {
    UpToDiv(j, l.perCol, x);
    UpToDiv(j, l.perCol, Min(x + l.cellW, l.pxW));
    UpToDiv(j, l.perCol, l.pxW);
    UpToDiv(j, l.perCol, x + l.cellW);
  }

  lemma ColumnsApart(l: Layout, x: nat)
    requires l.perCol > 0 && x < l.pxW
    ensures 0 <= x * l.perCol <= Min(x + l.cellW, l.pxW) * l.perCol <= l.perCol * l.pxW
  {
    var e := Min(x + l.cellW, l.pxW);
    MulAdds(x, e - x, l.perCol);
    MulAdds(e, l.pxW - e, l.perCol);
    MulBounds(x, l.perCol);
    MulBounds(e - x, l.perCol);
    MulBounds(l.pxW - e, l.perCol);
  }

  /** Where the mouse is, against the picture last painted. */
  datatype View = View(
    layout: Layout, pixels: bool, mapTop: int, viewFrom: nat, nblocks: nat, hoverCol: int, hoverRow: int)
  {
    /** Either nothing has been painted yet or the layout is one pixLayoutFor made. */
    predicate Painted(span: nat) {
      layout.blocksPerRow == 0 || (Good(layout, span) && layout.pxW >= 1 && layout.cellW >= 1 && layout.cellH >= 1)
    }

    /** The left edge of the mouse's cell, in pixels. */
    function Left(): int { (hoverCol - MAP_LABEL) * layout.cellW }

    /** The row of tiles the mouse's cell is in. */
    function TileRow(): int
      requires layout.rowSpan * layout.cellH != 0
    {
      (hoverRow - mapTop) * layout.cellH / (layout.rowSpan * layout.cellH)
    }

    /** The mouse's cell lies on the picture. */
    predicate Over() {
      && pixels && layout.blocksPerRow != 0 && mapTop != 0
      && hoverCol >= MAP_LABEL && 0 <= hoverRow - mapTop < layout.mapRows && Left() < layout.pxW
      && layout.rowSpan * layout.cellH != 0 && TileRow() < layout.tileRows
    }

    /** The block painted at tile `j` of row `t` of tiles, if there are so many. */
    function Block(t: nat, j: nat): nat { viewFrom + t * layout.blocksPerRow + j }

    /** The picture is a whole number of cells wide. */
    predicate WholeCells() { layout.cellW >= 1 && layout.pxW % layout.cellW == 0 }

    /** The mouse's cell lies on the picture, on the height of row `t` of tiles, and over tile `j` of it: with its
        middle if a tile has columns of its own, with any of its columns if tiles share them. */
    predicate PointsAt(t: nat, j: nat)
      requires layout.blocksPerRow >= 1
    {
      && pixels && mapTop != 0 && hoverCol >= MAP_LABEL && 0 <= hoverRow - mapTop < layout.mapRows
      && Left() < layout.pxW
      && RowSpanY(layout, t).0 <= (hoverRow - mapTop) * layout.cellH <= RowSpanY(layout, t).1
      && (if layout.perCol > 0 then Under(layout, j, Left()) else Probed(layout, j, Left() + layout.cellW / 2))
    }

    /** The first block of the mouse's row of tiles. */
    function RowStart(): int
      requires Over()
    {
      viewFrom + TileRow() * layout.blocksPerRow
    }

    /** The first block past the ones that were drawn. */
    function End(): nat { Min(viewFrom + layout.tileRows * layout.blocksPerRow, nblocks) }

    /** The columns of tiles the mouse is taken to be over. */
    function Columns(): (int, int)
      requires Over() && layout.pxW > 0
    {
      if layout.blockPx > 0 then
        var from := (Left() + layout.cellW / 2) * layout.blocksPerRow / layout.pxW;
        (from, from + 1)
      else (Left() * layout.perCol, Min(Left() + layout.cellW, layout.pxW) * layout.perCol)
    }
  }

  /** A mouse whose probed pixel lies in a tile past the tile's first column is over that tile's block, unless the
      block was never drawn. */
  lemma OverTile(v: View, span: nat, j: nat)
    requires v.Painted(span) && v.Over() && v.layout.perCol == 0 && j < v.layout.blocksPerRow
    requires Inside(v.layout, j, v.Left() + v.layout.cellW / 2)
    ensures v.Columns() == (j, j + 1)
  {
    MulBounds(v.hoverCol - MAP_LABEL, v.layout.cellW);
    InnerPixelResolves(v.layout, span, j, v.Left() + v.layout.cellW / 2);
  }

  /** With several blocks to a column, the mouse is over exactly the blocks painted in the columns of its cell. */
  lemma OverColumns(v: View, span: nat, j: nat)
    requires v.Painted(span) && v.Over() && v.layout.perCol > 0 && j < v.layout.blocksPerRow
    ensures v.Columns().0 <= j < v.Columns().1 <==> Under(v.layout, j, v.Left())
  {
    MulBounds(v.hoverCol - MAP_LABEL, v.layout.cellW);
    ColumnOf(v.layout, j, v.Left());
  }

  lemma NotNegative(x: nat, b: nat, w: nat)
    ensures x * b >= 0 && (w > 0 ==> x * b / w >= 0)
  {
  }

  lemma ColumnsInOrder(v: View, span: nat)
    requires v.Painted(span) && v.Over()
    ensures 0 <= v.Columns().0 <= v.Columns().1
  {
    var l := v.layout;
    MulBounds(v.hoverCol - MAP_LABEL, l.cellW);
    NotNegative(v.hoverCol - MAP_LABEL, l.cellW, 0);
    var x := v.Left();
    if l.perCol > 0 {
      ColumnsApart(l, x);
    } else {
      NotNegative(x + l.cellW / 2, l.blocksPerRow, l.pxW);
    }
  }

  lemma RowNotNegative(v: View)
    requires v.Over()
    ensures v.TileRow() >= 0 && v.RowStart() >= 0
  {
    var l := v.layout;
    NotNegative(v.hoverRow - v.mapTop, l.cellH, 0);
    NotNegative(l.rowSpan, l.cellH, 0);
    NotNegative((v.hoverRow - v.mapTop) * l.cellH, 1, l.rowSpan * l.cellH);
    NotNegative(v.TileRow(), l.blocksPerRow, 0);
  }

  /** The middle of a cell that begins on the picture lies on it. */
  lemma MiddleInside(c: nat, cellW: nat, pxW: nat)
    requires cellW >= 1 && pxW % cellW == 0 && c * cellW < pxW
    ensures c * cellW + cellW / 2 < pxW
  {
    MulMod(c, cellW);
    AddMod(c * cellW, cellW);
    if pxW < c * cellW + cellW { MultiplesOrdered(c * cellW + cellW, pxW, cellW); }
  }

  /** Slots of different rows do not mix. */
  lemma SlotsApart(b: nat, t: nat, j: nat, r: nat, from: nat, to: nat)
    requires j < b && from <= to <= b
    ensures r * b + from <= t * b + j < r * b + to <==> r == t && from <= j < to
  {
    MulAdds(r - t, t, b);
    MulBounds(r - t, b);
  }

  lemma ColumnsWithin(v: View, span: nat)
    requires v.Painted(span) && v.Over() && v.WholeCells()
    ensures 0 <= v.Columns().0 <= v.Columns().1 <= v.layout.blocksPerRow
  {
    var l := v.layout;
    ColumnsInOrder(v, span);
    MulBounds(v.hoverCol - MAP_LABEL, l.cellW);
    if l.perCol > 0 {
      ColumnsApart(l, v.Left());
    } else {
      MiddleInside(v.hoverCol - MAP_LABEL, l.cellW, l.pxW);
      ResolvedInside(v.Left() + l.cellW / 2, l.blocksPerRow, l.pxW);
    }
  }

  lemma ResolvedInside(p: nat, b: nat, w: nat)
    requires b >= 1 && p < w
    ensures p * b / w < b
  {
    UpToDiv(p * b, w, b);
    MulAdds(p, w - p, b);
    AtLeast(b, w - p);
  }

  /** The mouse is over the columns of just the tiles of the row that it points at. */
  lemma ColumnsIff(v: View, span: nat, j: nat)
    requires v.Painted(span) && v.Over() && v.WholeCells() && j < v.layout.blocksPerRow
    ensures v.Columns().0 <= j < v.Columns().1 <==>
            if v.layout.perCol > 0 then Under(v.layout, j, v.Left())
            else Probed(v.layout, j, v.Left() + v.layout.cellW / 2)
  {
    var l := v.layout;
    if l.perCol > 0 {
      OverColumns(v, span, j);
    } else {
      MulBounds(v.hoverCol - MAP_LABEL, l.cellW);
      MiddleInside(v.hoverCol - MAP_LABEL, l.cellW, l.pxW);
      ProbedIff(l, span, j, v.Left() + l.cellW / 2);
    }
  }

  /** The slots that the mouse is over are those of the tiles it points at. */
  lemma PointsIff(v: View, span: nat, t: nat, j: nat)
    requires v.Painted(span) && v.WholeCells() && t < v.layout.tileRows && j < v.layout.blocksPerRow
    ensures v.Over() && v.RowStart() + v.Columns().0 <= v.Block(t, j) < v.RowStart() + v.Columns().1 <==>
            v.PointsAt(t, j)
  {
    var l := v.layout;
    AtLeast(l.rowSpan, l.cellH);
    if 0 <= v.hoverRow - v.mapTop {
      MulNonneg(v.hoverRow - v.mapTop, l.cellH);
      RowIff(l, (v.hoverRow - v.mapTop) * l.cellH, t);
    }
    if v.Over() {
      ColumnsWithin(v, span);
      ColumnsIff(v, span, j);
      RowNotNegative(v);
      SlotsApart(l.blocksPerRow, t, j, v.TileRow(), v.Columns().0, v.Columns().1);
    }
  }

  /** The mouse is over this slot, counted from block 0. */
  predicate OverSlot(v: View, x: int) {
    v.Over() && v.layout.pxW > 0 && v.RowStart() + v.Columns().0 <= x < v.RowStart() + v.Columns().1
  }

  lemma AllPoints(v: View, span: nat)
    requires v.Painted(span) && v.WholeCells()
    ensures forall t: nat, j: nat :: t < v.layout.tileRows && j < v.layout.blocksPerRow ==>
              v.Block(t, j) < v.viewFrom + v.layout.tileRows * v.layout.blocksPerRow &&
              (OverSlot(v, v.Block(t, j)) <==> v.PointsAt(t, j))
  {
    var l := v.layout;
    forall t: nat, j: nat | t < l.tileRows && j < l.blocksPerRow
      ensures v.Block(t, j) < v.viewFrom + l.tileRows * l.blocksPerRow
      ensures OverSlot(v, v.Block(t, j)) <==> v.PointsAt(t, j)
    {
      PointsIff(v, span, t, j);
      MulAdds(t + 1, l.tileRows - t - 1, l.blocksPerRow);
      MulNonneg(l.tileRows - t - 1, l.blocksPerRow);
      MulAdds(t, 1, l.blocksPerRow);
    }
  }

  /** The frame the previous picture was drawn for, and the mouse over it. */
  class Frame {
    var view: View
    var hoverFrom: nat
    var hoverTo: nat

    /** resolveHover. Of the blocks drawn it names just those painted where the mouse points; off the picture there is
        none, and blocks that were never drawn are never named. */
    method ResolveHover(ghost span: nat)
      requires view.Painted(span)
      modifies `hoverFrom, `hoverTo
      ensures !view.Over() ==> hoverFrom == hoverTo == 0
      ensures view.Over() ==>
                && hoverFrom == Min(view.RowStart() + view.Columns().0, view.End())
                && hoverTo == Min(view.RowStart() + view.Columns().1, view.End())
                && hoverFrom <= hoverTo <= view.End()
      ensures view.WholeCells() ==>
                forall t: nat, j: nat ::
                  t < view.layout.tileRows && j < view.layout.blocksPerRow && view.Block(t, j) < view.nblocks ==>
                    (hoverFrom <= view.Block(t, j) < hoverTo <==> view.PointsAt(t, j))
    {
      if view.WholeCells() {
        AllPoints(view, span);
      }
      hoverFrom, hoverTo := 0, 0;
      var l := view.layout;
      if !view.pixels || l.blocksPerRow == 0 || view.mapTop == 0 {
        return;
      }
      var col, row := view.hoverCol - MAP_LABEL, view.hoverRow - view.mapTop;
      if col < 0 || row < 0 || row >= l.mapRows {
        return;
      }
      var x := col * l.cellW;
      if x >= l.pxW {
        return;
      }
      AtLeast(l.rowSpan, l.cellH);
      var t := row * l.cellH / (l.rowSpan * l.cellH);
      if t >= l.tileRows {
        return;
      }
      var from, to := 0, 0;
      if l.blockPx > 0 {
        from := (x + l.cellW / 2) * l.blocksPerRow / l.pxW;
        to := from + 1;
      } else {
        from := x * l.perCol;
        to := Min(x + l.cellW, l.pxW) * l.perCol;
      }
      ColumnsInOrder(view, span);
      RowNotNegative(view);
      var last := Min(view.viewFrom + l.tileRows * l.blocksPerRow, view.nblocks);
      hoverFrom := Min(view.viewFrom + t * l.blocksPerRow + from, last);
      hoverTo := Min(view.viewFrom + t * l.blocksPerRow + to, last);
    }
  }
}
