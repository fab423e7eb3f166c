/** The editing grid (PixelEditor): an N x N matrix of palette indices that
    is read and written with bounds checks, cleared in place, hit-tested
    against mouse clicks, and drawn by its own render as a uniform grid of
    placeholder cells with grid lines. */
module Editor {
  import opened Draw
  import Scan

  /** g is an n x n matrix, stored row by row (g[y][x]). */
  predicate IsSquare(g: seq<seq<int>>, n: nat) {
    |g| == n && forall y :: 0 <= y < n ==> |g[y]| == n
  }

  /** The image of side n in which every cell is background (index 0). */
  function Blank(n: nat): (g: seq<seq<int>>)
    ensures IsSquare(g, n)
    ensures forall y, x :: 0 <= y < n && 0 <= x < n ==> g[y][x] == 0
  {
    seq(n, _ => seq(n, _ => 0))
  }

  /** The image g with cell (x, y) set to v. */
  function Painted(g: seq<seq<int>>, x: nat, y: nat, v: int): seq<seq<int>>
    requires y < |g| && x < |g[y]|
  {
    g[y := g[y][x := v]]
  }

  /** The screen rectangle of cell (x, y) when the grid's top-left corner is
      at (originX, originY) and every cell is cellSize pixels wide. */
  function CellRect(originX: int, originY: int, cellSize: int, x: int, y: int): Rect {
    Rect(originX + x * cellSize, originY + y * cellSize, cellSize, cellSize)
  }

  /** The hit test of handleClick: the cell under the mouse, if any. The
      offsets from the origin are divided by the cell size the way C++ does. */
  function CellAt(mouseX: int, mouseY: int, gridX: int, gridY: int, cellSize: int, n: int)
    : (r: Option<(int, int)>)
    requires cellSize != 0
    ensures r.Some? ==> mouseX >= gridX && mouseY >= gridY
    ensures r.Some? ==> 0 <= r.value.0 < n && 0 <= r.value.1 < n
  {
    var relX := mouseX - gridX;
    var relY := mouseY - gridY;
    if relX < 0 || relY < 0 then None
    else
      var x := TruncDiv(relX, cellSize);
      var y := TruncDiv(relY, cellSize);
      if 0 <= x < n && 0 <= y < n then Some((x, y)) else None
  }

  /** With a positive cell size the hit test inverts the layout: a click
      selects cell (x, y) exactly when it falls inside that cell's rectangle. */
  lemma CellAtInvertsLayout(mouseX: int, mouseY: int, gridX: int, gridY: int, cellSize: int,
                            n: int, x: int, y: int)
    requires cellSize > 0
    ensures CellAt(mouseX, mouseY, gridX, gridY, cellSize, n) == Some((x, y)) <==>
            0 <= x < n && 0 <= y < n && Inside(mouseX, mouseY, CellRect(gridX, gridY, cellSize, x, y))
  {
    var relX, relY := mouseX - gridX, mouseY - gridY;
    if 0 <= x && 0 <= y {
      MultipleAtLeast(x, cellSize);
      MultipleAtLeast(y, cellSize);
      assert x * cellSize >= 0 && y * cellSize >= 0;
    }
    if relX >= 0 && relY >= 0 {
      TruncDivNonNegative(relX, cellSize);
      TruncDivNonNegative(relY, cellSize);
      DivBand(relX, cellSize, x);
      DivBand(relY, cellSize, y);
    }
  }

  const EmptyFill := Color(240, 240, 240, 255)
  const PaintedFill := Color(200, 200, 200, 255)

  /** The two draw calls for one cell of value v placed at r. */
  function CellOps(v: int, r: Rect): seq<DrawOp> {
    [Fill(r, if v == 0 then EmptyFill else PaintedFill), Outline(r, MidGray)]
  }

  /** The draw calls for cell (x, y) of g, the grid's top-left corner being
      at (originX, originY); nothing for a position outside g. */
  function GridCell(g: seq<seq<int>>, originX: int, originY: int, cellSize: int): (nat, nat) -> seq<DrawOp> {
    (y: nat, x: nat) =>
      if y < |g| && x < |g[y]| then CellOps(g[y][x], CellRect(originX, originY, cellSize, x, y)) else []
  }

  /** Everything PixelEditor::render draws, rows top to bottom, cells left to right. */
  function GridOps(g: seq<seq<int>>, n: nat, originX: int, originY: int, cellSize: int): seq<DrawOp> {
    Scan.Rows(GridCell(g, originX, originY, cellSize), n, n)
  }

  /** What PixelEditor::render draws: for every cell (x, y), a fill of its
      rectangle (light grey when empty, placeholder grey when painted) followed
      by a mid-grey outline, at position 2 * (y * n + x) of the sequence. */
  lemma GridOpsLayout(g: seq<seq<int>>, n: nat, originX: int, originY: int, cellSize: int,
                      x: nat, y: nat)
    requires IsSquare(g, n) && x < n && y < n
    ensures |GridOps(g, n, originX, originY, cellSize)| == 2 * (n * n)
    ensures var k := 2 * (y * n + x);
      && k + 1 < 2 * (n * n)
      && GridOps(g, n, originX, originY, cellSize)[k]
         == Fill(CellRect(originX, originY, cellSize, x, y), if g[y][x] == 0 then EmptyFill else PaintedFill)
      && GridOps(g, n, originX, originY, cellSize)[k + 1] == Outline(CellRect(originX, originY, cellSize, x, y), MidGray)
  {
    var cell := GridCell(g, originX, originY, cellSize);
    GridCellLength(g, n, originX, originY, cellSize);
    Scan.RowsUniformLength(cell, 2, n, n);
    Scan.RowsAt(cell, 2, n, n, y, x);
    PairCount(n, y, x);
    GridCellAt(g, n, originX, originY, cellSize, x, y);
    PairAt(GridOps(g, n, originX, originY, cellSize), 2 * (y * n + x), cell(y, x));
  }

  lemma GridCellLength(g: seq<seq<int>>, n: nat, originX: int, originY: int, cellSize: int)
    requires IsSquare(g, n)
    ensures forall r: nat, c: nat :: r < n && c < n ==> |GridCell(g, originX, originY, cellSize)(r, c)| == 2
  {
  }

  lemma GridCellAt(g: seq<seq<int>>, n: nat, originX: int, originY: int, cellSize: int, x: nat, y: nat)
    requires IsSquare(g, n) && x < n && y < n
    ensures var r := CellRect(originX, originY, cellSize, x, y);
      GridCell(g, originX, originY, cellSize)(y, x)
      == [Fill(r, if g[y][x] == 0 then EmptyFill else PaintedFill), Outline(r, MidGray)]
  {
  }

  lemma PairAt(ops: seq<DrawOp>, k: nat, pair: seq<DrawOp>)
    requires k + 2 <= |ops| && |pair| == 2 && ops[k .. k + 2] == pair
    ensures ops[k] == pair[0] && ops[k + 1] == pair[1]
  {
    assert ops[k] == ops[k .. k + 2][0];
    assert ops[k + 1] == ops[k .. k + 2][1];
  }

  lemma PairCount(n: nat, y: nat, x: nat)
    ensures n * (n * 2) == 2 * (n * n)
    ensures 0 <= y * n && (y * n + x) * 2 == 2 * (y * n + x)
  {
  }

  /** Two n x n images with the same cells are the same image. */
  lemma SameImage(a: seq<seq<int>>, b: seq<seq<int>>, n: nat)
    requires IsSquare(a, n) && IsSquare(b, n)
    requires forall y, x :: 0 <= y < n && 0 <= x < n ==> a[y][x] == b[y][x]
    ensures a == b
  {
    forall y | 0 <= y < n
      ensures a[y] == b[y]
    {
      assert forall x :: 0 <= x < n ==> a[y][x] == b[y][x];
    }
  }

  /** The pixel grid of the editor. pixels[y][x] holds the palette index of
      column x, row y; the rows are sized once, by the constructor, and the
      cells are then overwritten in place. */
  class PixelEditor {
    const gridSize: nat
    var pixels: seq<seq<int>>

    ghost predicate Valid()
      reads this
    {
      IsSquare(pixels, gridSize)
    }

    /** The image currently held, row by row. */
    function GetPixelData(): (g: seq<seq<int>>)
      requires Valid()
      reads this
      ensures IsSquare(g, gridSize)
    {
      pixels
    }

    predicate InBounds(x: int, y: int) {
      0 <= x < gridSize && 0 <= y < gridSize
    }

    /** A fresh grid of the given size in which every cell is background. */
    constructor (gridSize: nat)
      ensures this.gridSize == gridSize && Valid()
      ensures GetPixelData() == Blank(gridSize)
    {
      this.gridSize := gridSize;
      pixels := Blank(gridSize);
    }

    /** The index at (x, y); 0 for a position outside the grid. */
    function GetPixel(x: int, y: int): (v: int)
      requires Valid()
      reads this
      ensures InBounds(x, y) ==> v == GetPixelData()[y][x]
      ensures !InBounds(x, y) ==> v == 0
    {
      if InBounds(x, y) then pixels[y][x] else 0
    }

    /** Writes colorIndex at (x, y) when that lies inside the grid, and
      otherwise leaves the grid as it was. The index is not checked against
      the palette. */
    method SetPixel(x: int, y: int, colorIndex: int)
      requires Valid()
      modifies this
      ensures Valid()
      ensures GetPixelData() == if InBounds(x, y) then Painted(old(GetPixelData()), x, y, colorIndex) else old(GetPixelData())
    {
      if InBounds(x, y) {
        pixels := pixels[y := pixels[y][x := colorIndex]];
      }
    }

    /** Resets every cell to background, row by row. */
    method Clear()
      requires Valid()
      modifies this
      ensures Valid()
      ensures GetPixelData() == Blank(gridSize)
    {
      var y := 0;
      while y < gridSize
        invariant 0 <= y <= gridSize && Valid()
        invariant forall j, i :: 0 <= j < y && 0 <= i < gridSize ==> pixels[j][i] == 0
      {
        var x := 0;
        while x < gridSize
          invariant 0 <= x <= gridSize && Valid()
          invariant forall j, i :: 0 <= j < y && 0 <= i < gridSize ==> pixels[j][i] == 0
          invariant forall i :: 0 <= i < x ==> pixels[y][i] == 0
        {
          pixels := pixels[y := pixels[y][x := 0]];
          x := x + 1;
        }
        y := y + 1;
      }
      SameImage(pixels, Blank(gridSize), gridSize);
    }

    /** Paints the cell under the mouse with colorIndex. Reports whether the
      click hit the grid; a miss changes nothing. */
    method HandleClick(mouseX: int, mouseY: int, gridX: int, gridY: int, cellSize: int, colorIndex: int)
      returns (handled: bool)
      requires Valid() && cellSize != 0
      modifies this
      ensures Valid()
      ensures handled == CellAt(mouseX, mouseY, gridX, gridY, cellSize, gridSize).Some?
      ensures GetPixelData() == match CellAt(mouseX, mouseY, gridX, gridY, cellSize, gridSize)
                        case Some((x, y)) => Painted(old(GetPixelData()), x, y, colorIndex)
                        case None => old(GetPixelData())
    {
      var relativeX := mouseX - gridX;
      var relativeY := mouseY - gridY;
      if relativeX < 0 || relativeY < 0 {
        return false;
      }
      var pixelX := TruncDiv(relativeX, cellSize);
      var pixelY := TruncDiv(relativeY, cellSize);
      if 0 <= pixelX < gridSize && 0 <= pixelY < gridSize {
        SetPixel(pixelX, pixelY, colorIndex);
        return true;
      }
      return false;
    }

    /** The draw calls of PixelEditor::render, issued row by row. The
      application does not call it: it draws the grid itself, in palette
      colours. */
    method Render(offsetX: int, offsetY: int, cellSize: int) returns (ops: seq<DrawOp>)
      requires Valid()
      ensures ops == GridOps(GetPixelData(), gridSize, offsetX, offsetY, cellSize)
    {
      ops := [];
      ghost var cell := GridCell(pixels, offsetX, offsetY, cellSize);
      var y := 0;
      while y < gridSize
        invariant 0 <= y <= gridSize
        invariant ops == Scan.Rows(cell, gridSize, y)
      {
        var x := 0;
        while x < gridSize
          invariant 0 <= x <= gridSize
          invariant ops == Scan.Rows(cell, gridSize, y) + Scan.Row(cell, y, x)
        {
          var rect := CellRect(offsetX, offsetY, cellSize, x, y);
          var fill := if pixels[y][x] == 0 then EmptyFill else PaintedFill;
          Scan.RowStep(cell, Scan.Rows(cell, gridSize, y), y, x);
          assert cell(y, x) == [Fill(rect, fill), Outline(rect, MidGray)];
          ops := ops + [Fill(rect, fill), Outline(rect, MidGray)];
          x := x + 1;
        }
        Scan.RowsStep(cell, gridSize, y);
        y := y + 1;
      }
    }
  }
}
