/**
 * `getGridLayout` and the geometry of `createStitchedImage`
 * (src/imageProcessor.js): where each of 2 to 6 images goes on the
 * canvas, how large the canvas is, and its background colour. Column
 * positions are kept in half columns, so the centred 0.5 and 1.5 of the
 * three- and five-image layouts are exact.
 */
module Layout {
  import opened Wrappers

  /** A grid position: `halfCol / 2` columns from the left, `row` rows from the top. */
  datatype Cell = Cell(halfCol: nat, row: nat)

  datatype GridLayout = GridLayout(cols: nat, rows: nat, positions: seq<Cell>)

  /** Every cell lies within the grid. */
  predicate Fits(g: GridLayout)
  {
    forall i :: 0 <= i < |g.positions| ==>
      g.positions[i].halfCol + 2 <= 2 * g.cols && g.positions[i].row + 1 <= g.rows
  }

  /** No two cells overlap: they are on different rows or at least a column apart. */
  predicate Disjoint(g: GridLayout)
  {
    forall i, j :: 0 <= i < j < |g.positions| ==>
      || g.positions[i].row != g.positions[j].row
      || g.positions[i].halfCol + 2 <= g.positions[j].halfCol
      || g.positions[j].halfCol + 2 <= g.positions[i].halfCol
  }

  /** `getGridLayout(count)`: the fixed table for 2 to 6 images, nothing (`undefined`) otherwise. */
  function GetGridLayout(count: int): (r: Option<GridLayout>)
    ensures r.Some? <==> 2 <= count <= 6
    ensures r.Some? ==> |r.value.positions| == count && Fits(r.value) && Disjoint(r.value)
    ensures r.Some? ==> r.value.cols * r.value.rows < 2 * count
  {
    if count == 2 then Some(GridLayout(2, 1, [Cell(0, 0), Cell(2, 0)]))
    else if count == 3 then Some(GridLayout(2, 2, [Cell(0, 0), Cell(2, 0), Cell(1, 1)]))
    else if count == 4 then Some(GridLayout(2, 2, [Cell(0, 0), Cell(2, 0), Cell(0, 1), Cell(2, 1)]))
    else if count == 5 then Some(GridLayout(3, 2, [Cell(0, 0), Cell(2, 0), Cell(4, 0), Cell(1, 1), Cell(3, 1)]))
    else if count == 6 then Some(GridLayout(3, 2, [Cell(0, 0), Cell(2, 0), Cell(4, 0), Cell(0, 1), Cell(2, 1), Cell(4, 1)]))
    else None
  }

  /** Some cell of the same row sits where cell `i` would be reflected about the grid's centre line. */
  predicate HasMirror(g: GridLayout, i: nat)
    requires i < |g.positions|
  {
    exists j :: (0 <= j < |g.positions| && g.positions[j].row == g.positions[i].row
      && g.positions[i].halfCol + g.positions[j].halfCol + 2 == 2 * g.cols)
  }

  /** Every row is its own mirror image, so each row, the short last one included, sits centred. */
  predicate Mirrored(g: GridLayout)
  {
    forall i: nat :: i < |g.positions| ==> HasMirror(g, i)
  }

  /** `mirror[i]` names the cell that mirrors cell `i`. */
  lemma MirroredBy(g: GridLayout, mirror: seq<nat>)
    requires |mirror| == |g.positions|
    requires forall i :: 0 <= i < |mirror| ==>
      && mirror[i] < |g.positions| && g.positions[mirror[i]].row == g.positions[i].row
      && g.positions[i].halfCol + g.positions[mirror[i]].halfCol + 2 == 2 * g.cols
    ensures Mirrored(g)
  {
    forall i: nat | i < |g.positions|
      ensures HasMirror(g, i)
    {
      var j := mirror[i];
      assert 0 <= j < |g.positions| && g.positions[j].row == g.positions[i].row
        && g.positions[i].halfCol + g.positions[j].halfCol + 2 == 2 * g.cols;
    }
  }

  lemma LayoutsCentred(count: int)
    requires 2 <= count <= 6
    ensures Mirrored(GetGridLayout(count).value)
  {
    if count == 2 {
      MirroredBy(GridLayout(2, 1, [Cell(0, 0), Cell(2, 0)]), [1, 0]);
    } else if count == 3 {
      MirroredBy(GridLayout(2, 2, [Cell(0, 0), Cell(2, 0), Cell(1, 1)]), [1, 0, 2]);
    } else if count == 4 {
      MirroredBy(GridLayout(2, 2, [Cell(0, 0), Cell(2, 0), Cell(0, 1), Cell(2, 1)]), [1, 0, 3, 2]);
    } else if count == 5 {
      MirroredBy(GridLayout(3, 2, [Cell(0, 0), Cell(2, 0), Cell(4, 0), Cell(1, 1), Cell(3, 1)]), [2, 1, 0, 4, 3]);
    } else {
      MirroredBy(GridLayout(3, 2, [Cell(0, 0), Cell(2, 0), Cell(4, 0), Cell(0, 1), Cell(2, 1), Cell(4, 1)]), [2, 1, 0, 5, 4, 3]);
    }
  }

  // ----------------------------------------------------------------- canvas

  datatype Size = Size(width: nat, height: nat)

  datatype Rgb = Rgb(r: nat, g: nat, b: nat)

  const Black: Rgb := Rgb(0, 0, 0)
  const White: Rgb := Rgb(255, 255, 255)

  /** Where an image's top-left corner goes. */
  datatype Placement = Placement(left: nat, top: nat)

  datatype Canvas = Canvas(width: nat, height: nat, background: Rgb, placements: seq<Placement>)

  /** `Math.max(...images.map(img => img.metadata.width))`. */
  function MaxWidth(sizes: seq<Size>): (m: nat)
    requires sizes != []
    ensures forall i :: 0 <= i < |sizes| ==> sizes[i].width <= m
    ensures exists i :: 0 <= i < |sizes| && sizes[i].width == m
  {
    if |sizes| == 1 then sizes[0].width
    else
      var rest := MaxWidth(sizes[1..]);
      assert forall i :: 1 <= i < |sizes| ==> sizes[i] == sizes[1..][i - 1];
      if sizes[0].width >= rest then sizes[0].width else rest
  }

  /** `Math.max(...images.map(img => img.metadata.height))`. */
  function MaxHeight(sizes: seq<Size>): (m: nat)
    requires sizes != []
    ensures forall i :: 0 <= i < |sizes| ==> sizes[i].height <= m
    ensures exists i :: 0 <= i < |sizes| && sizes[i].height == m
  {
    if |sizes| == 1 then sizes[0].height
    else
      var rest := MaxHeight(sizes[1..]);
      assert forall i :: 1 <= i < |sizes| ==> sizes[i] == sizes[1..][i - 1];
      if sizes[0].height >= rest then sizes[0].height else rest
  }

  /** `Math.floor(position * cell)` for a position given in half cells. */
  function HalfCellOffset(halfCol: nat, cell: nat): nat
  {
    (halfCol * cell) / 2
  }

  /**
   * `createStitchedImage` without the pixels: cells as large as the
   * largest image, the canvas `cols` by `rows` cells, black behind an odd
   * number of images and white behind an even one, image `i` at its cell.
   */
  function CreateStitchedImage(sizes: seq<Size>, layout: GridLayout): (c: Canvas)
    requires sizes != [] && |sizes| == |layout.positions|
    ensures c.width == MaxWidth(sizes) * layout.cols && c.height == MaxHeight(sizes) * layout.rows
    ensures |c.placements| == |sizes|
    ensures c.background == (if |sizes| % 2 == 1 then Black else White)
  {
    var cellWidth := MaxWidth(sizes);
    var cellHeight := MaxHeight(sizes);
    Canvas(
      cellWidth * layout.cols,
      cellHeight * layout.rows,
      if |sizes| % 2 == 1 then Black else White,
      seq(|sizes|, i requires 0 <= i < |sizes| =>
        Placement(HalfCellOffset(layout.positions[i].halfCol, cellWidth), layout.positions[i].row * cellHeight)))
  }

  lemma OffsetStep(halfCol: nat, cell: nat)
    ensures HalfCellOffset(halfCol + 2, cell) == HalfCellOffset(halfCol, cell) + cell
  {
    assert (halfCol + 2) * cell == halfCol * cell + 2 * cell;
  }

  lemma OffsetMonotone(a: nat, b: nat, cell: nat)
    requires a <= b
    ensures HalfCellOffset(a, cell) <= HalfCellOffset(b, cell)
  {
    assert a * cell <= b * cell;
  }

  lemma ScaleMonotone(a: nat, b: nat, cell: nat)
    requires a <= b
    ensures a * cell <= b * cell
  {
  }

  lemma PlacementOf(sizes: seq<Size>, layout: GridLayout, i: nat)
    requires sizes != [] && |sizes| == |layout.positions| && i < |sizes|
    ensures var c := CreateStitchedImage(sizes, layout);
      && c.width == MaxWidth(sizes) * layout.cols && c.height == MaxHeight(sizes) * layout.rows
      && c.placements[i] == Placement(HalfCellOffset(layout.positions[i].halfCol, MaxWidth(sizes)), layout.positions[i].row * MaxHeight(sizes))
  {
  }

  /** An image no larger than its cell, in a cell within the grid, stays within the canvas. */
  lemma CellInside(halfCol: nat, row: nat, cols: nat, rows: nat, cellWidth: nat, cellHeight: nat, width: nat, height: nat)
    requires halfCol + 2 <= 2 * cols && row + 1 <= rows && width <= cellWidth && height <= cellHeight
    ensures HalfCellOffset(halfCol, cellWidth) + width <= cellWidth * cols
    ensures row * cellHeight + height <= cellHeight * rows
  {
    OffsetStep(halfCol, cellWidth);
    OffsetMonotone(halfCol + 2, 2 * cols, cellWidth);
    assert HalfCellOffset(2 * cols, cellWidth) == cellWidth * cols by {
      assert (2 * cols) * cellWidth == 2 * (cellWidth * cols);
    }
    ScaleMonotone(row + 1, rows, cellHeight);
    assert (row + 1) * cellHeight == row * cellHeight + cellHeight;
    assert rows * cellHeight == cellHeight * rows;
  }

  /** With a layout that fits, every image lies wholly inside the canvas. */
  lemma ImagesInsideCanvas(sizes: seq<Size>, layout: GridLayout, i: nat)
    requires sizes != [] && |sizes| == |layout.positions| && Fits(layout) && i < |sizes|
    ensures var c := CreateStitchedImage(sizes, layout);
      c.placements[i].left + sizes[i].width <= c.width && c.placements[i].top + sizes[i].height <= c.height
  {
    PlacementOf(sizes, layout, i);
    var p := layout.positions[i];
    CellInside(p.halfCol, p.row, layout.cols, layout.rows, MaxWidth(sizes), MaxHeight(sizes), sizes[i].width, sizes[i].height);
  }

  /** Two images no larger than their cells, in cells a row or a column apart, do not overlap. */
  lemma CellsApart(p: Cell, q: Cell, cellWidth: nat, cellHeight: nat, wp: nat, hp: nat, wq: nat, hq: nat)
    requires wp <= cellWidth && hp <= cellHeight && wq <= cellWidth && hq <= cellHeight
    requires p.row != q.row || p.halfCol + 2 <= q.halfCol || q.halfCol + 2 <= p.halfCol
    ensures var lp, lq := HalfCellOffset(p.halfCol, cellWidth), HalfCellOffset(q.halfCol, cellWidth);
      var tp, tq := p.row * cellHeight, q.row * cellHeight;
      lp + wp <= lq || lq + wq <= lp || tp + hp <= tq || tq + hq <= tp
  {
    if p.row != q.row {
      if p.row < q.row {
        ScaleMonotone(p.row + 1, q.row, cellHeight);
        assert (p.row + 1) * cellHeight == p.row * cellHeight + cellHeight;
      } else {
        ScaleMonotone(q.row + 1, p.row, cellHeight);
        assert (q.row + 1) * cellHeight == q.row * cellHeight + cellHeight;
      }
    } else if p.halfCol + 2 <= q.halfCol {
      OffsetStep(p.halfCol, cellWidth);
      OffsetMonotone(p.halfCol + 2, q.halfCol, cellWidth);
    } else {
      OffsetStep(q.halfCol, cellWidth);
      OffsetMonotone(q.halfCol + 2, p.halfCol, cellWidth);
    }
  }

  /** With a disjoint layout, no two images overlap on the canvas. */
  lemma ImagesDisjoint(sizes: seq<Size>, layout: GridLayout, i: nat, j: nat)
    requires sizes != [] && |sizes| == |layout.positions| && Disjoint(layout) && i < j < |sizes|
    ensures var c := CreateStitchedImage(sizes, layout);
      var a, b := c.placements[i], c.placements[j];
      || a.left + sizes[i].width <= b.left || b.left + sizes[j].width <= a.left
      || a.top + sizes[i].height <= b.top || b.top + sizes[j].height <= a.top
  {
    PlacementOf(sizes, layout, i);
    PlacementOf(sizes, layout, j);
    CellsApart(layout.positions[i], layout.positions[j], MaxWidth(sizes), MaxHeight(sizes),
      sizes[i].width, sizes[i].height, sizes[j].width, sizes[j].height);
  }
}
