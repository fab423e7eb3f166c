/** The recursive preview (RecursiveRenderer). For every painted cell of the
    grid it stamps a scaled copy of the whole grid, in which every painted
    cell becomes a square of the outer cell's colour. The pulsing zoom is
    reduced to its integer result, the adjusted scale factor, which Render
    takes as a parameter. */
module Preview {
  import opened Draw
  import opened Editor
  import opened Palettes
  import opened Scan

  /** The number of rows and columns the renderer visits: baseSize, or none
      when baseSize is negative. */
  function Span(baseSize: int): nat {
    if baseSize < 0 then 0 else baseSize
  }

  /** The first n rows and columns of g exist. */
  predicate Covers(g: seq<seq<int>>, n: nat) {
    n <= |g| && forall y :: 0 <= y < n ==> n <= |g[y]|
  }

  lemma SquareCovers(g: seq<seq<int>>, size: nat, n: nat)
    requires IsSquare(g, size) && n <= size
    ensures Covers(g, n)
  {
  }

  /** Side of one square of a stamp of the given size: size / baseSize as C++
      divides, raised to one pixel when that is smaller. */
  function PixelSize(size: int, baseSize: int): (pixelSize: int)
    requires baseSize != 0
    ensures pixelSize >= 1
    ensures TruncDiv(size, baseSize) >= 1 ==> pixelSize == TruncDiv(size, baseSize)
    ensures TruncDiv(size, baseSize) < 1 ==> pixelSize == 1
  {
    var q := TruncDiv(size, baseSize);
    if q < 1 then 1 else q
  }

  /** The shift that keeps the pulsing square centred on the square of side
      scaleFactor * baseSize, the same on both axes. */
  function CenterOffset(scaleFactor: int, adjusted: int, baseSize: int): int {
    TruncDiv(scaleFactor * baseSize - adjusted * baseSize, 2)
  }

  /** The offset splits the difference between the nominal and the pulsed
      side evenly: the margins before and after the pulsed square differ by at
      most one pixel. It vanishes when there is no pulse and is never positive
      while the pulse enlarges the image. */
  lemma CenterOffsetCentres(scaleFactor: int, adjusted: int, baseSize: int)
    ensures var c := CenterOffset(scaleFactor, adjusted, baseSize);
            var after := scaleFactor * baseSize - (c + adjusted * baseSize);
            Abs(after - c) <= 1
    ensures adjusted == scaleFactor ==> CenterOffset(scaleFactor, adjusted, baseSize) == 0
    ensures adjusted >= scaleFactor && baseSize >= 0 ==> CenterOffset(scaleFactor, adjusted, baseSize) <= 0
  {
    var d := scaleFactor * baseSize - adjusted * baseSize;
    TruncDivBounds(d, 2);
    assert d == (scaleFactor - adjusted) * baseSize;
    if adjusted >= scaleFactor && baseSize > 0 {
      MultipleAtLeast(adjusted - scaleFactor, baseSize);
      assert (adjusted - scaleFactor) * baseSize >= 0;
    }
  }

  /** The square painted for sub-cell (px, py) of a stamp anchored at (x, y). */
  function SubFill(x: int, y: int, pixelSize: int, color: Color, px: int, py: int): DrawOp {
    Fill(CellRect(x, y, pixelSize, px, py), color)
  }

  /** Cell (x, y) of image g exists and is painted (not index 0). */
  predicate IsPainted(g: seq<seq<int>>, y: nat, x: nat) {
    y < |g| && x < |g[y]| && g[y][x] != 0
  }

  // ---------------------------------------------------------------------
  // What renderPixelRecursive draws, in the order its loops draw it

  /** The draw calls for inner cell (px, py) of a stamp anchored at (x, y):
      one square in color when the cell is painted, nothing otherwise. */
  function StampCellOps(g: seq<seq<int>>, x: int, y: int, pixelSize: int, color: Color, py: nat, px: nat)
    : seq<DrawOp>
  {
    if IsPainted(g, py, px) then [SubFill(x, y, pixelSize, color, px, py)] else []
  }

  /** Inner cells 0 .. px - 1 of row py. */
  function StampRow(g: seq<seq<int>>, x: int, y: int, pixelSize: int, color: Color, py: nat, px: nat)
    : seq<DrawOp>
  {
    if px == 0 then []
    else StampRow(g, x, y, pixelSize, color, py, px - 1) + StampCellOps(g, x, y, pixelSize, color, py, px - 1)
  }

  /** Inner rows 0 .. py - 1, each n cells wide. */
  function StampRows(g: seq<seq<int>>, x: int, y: int, pixelSize: int, color: Color, n: nat, py: nat)
    : seq<DrawOp>
  {
    if py == 0 then []
    else StampRows(g, x, y, pixelSize, color, n, py - 1) + StampRow(g, x, y, pixelSize, color, py - 1, n)
  }

  /** The scan of renderPixelRecursive after inner cell (px, py): its
      square when it is painted, after what was drawn before it. */
  lemma StampAdvance(g: seq<seq<int>>, x: int, y: int, pixelSize: int, color: Color, before: seq<DrawOp>, py: nat, px: nat)
    requires py < |g| && px < |g[py]|
    ensures before + StampRow(g, x, y, pixelSize, color, py, px + 1)
            == if g[py][px] != 0 then before + StampRow(g, x, y, pixelSize, color, py, px) + [SubFill(x, y, pixelSize, color, px, py)]
               else before + StampRow(g, x, y, pixelSize, color, py, px)
  {
    var cellOps := StampCellOps(g, x, y, pixelSize, color, py, px);
    assert StampRow(g, x, y, pixelSize, color, py, px + 1) == StampRow(g, x, y, pixelSize, color, py, px) + cellOps;
    assert before + (StampRow(g, x, y, pixelSize, color, py, px) + cellOps)
           == (before + StampRow(g, x, y, pixelSize, color, py, px)) + cellOps;
    if g[py][px] == 0 {
      assert StampRow(g, x, y, pixelSize, color, py, px) + cellOps == StampRow(g, x, y, pixelSize, color, py, px);
    }
  }

  /** One more inner row. */
  lemma StampRowsStep(g: seq<seq<int>>, x: int, y: int, pixelSize: int, color: Color, n: nat, py: nat)
    ensures StampRows(g, x, y, pixelSize, color, n, py + 1)
            == StampRows(g, x, y, pixelSize, color, n, py) + StampRow(g, x, y, pixelSize, color, py, n)
  {
  }

  /** Everything renderPixelRecursive draws for a stamp of the given size at
      (x, y) tinted with color. */
  function Stamp(g: seq<seq<int>>, baseSize: int, x: int, y: int, size: int, color: Color): seq<DrawOp>
    requires baseSize != 0
  {
    StampRows(g, x, y, PixelSize(size, baseSize), color, Span(baseSize), Span(baseSize))
  }

  // ---------------------------------------------------------------------
  // What render draws, in the order its loops draw it

  /** The palette index of cell (x, y), background outside the image. */
  function IndexAt(g: seq<seq<int>>, y: nat, x: nat): int {
    if y < |g| && x < |g[y]| then g[y][x] else 0
  }

  /** The stamp each outer cell (x, y) puts down when painted: the image's
      stamp anchored at the cell's place, sized by the adjusted scale, in the
      cell's palette colour. (originX, originY) already holds the centring
      offset. */
  function CellStamp(g: seq<seq<int>>, baseSize: int, palette: Palette, adjusted: int,
                     originX: int, originY: int): (nat, nat) -> seq<DrawOp>
    requires baseSize != 0
  {
    (y: nat, x: nat) =>
      Stamp(g, baseSize, originX + x * adjusted, originY + y * adjusted, adjusted, palette.GetColor(IndexAt(g, y, x)))
  }

  /** The draw calls for outer cell (x, y): its stamp when it is painted,
      nothing otherwise. */
  function PreviewCellOps(g: seq<seq<int>>, stamp: (nat, nat) -> seq<DrawOp>, y: nat, x: nat): seq<DrawOp> {
    if IsPainted(g, y, x) then stamp(y, x) else []
  }

  /** Outer cells 0 .. x - 1 of row y. */
  function PreviewRow(g: seq<seq<int>>, stamp: (nat, nat) -> seq<DrawOp>, y: nat, x: nat): seq<DrawOp> {
    if x == 0 then [] else PreviewRow(g, stamp, y, x - 1) + PreviewCellOps(g, stamp, y, x - 1)
  }

  /** Outer rows 0 .. y - 1, each n cells wide. */
  function PreviewRows(g: seq<seq<int>>, stamp: (nat, nat) -> seq<DrawOp>, n: nat, y: nat): seq<DrawOp> {
    if y == 0 then [] else PreviewRows(g, stamp, n, y - 1) + PreviewRow(g, stamp, y - 1, n)
  }

  /** One more outer row. */
  lemma PreviewRowsStep(g: seq<seq<int>>, stamp: (nat, nat) -> seq<DrawOp>, n: nat, y: nat)
    ensures PreviewRows(g, stamp, n, y + 1) == PreviewRows(g, stamp, n, y) + PreviewRow(g, stamp, y, n)
  {
  }

  /** The scan of render after outer cell (x, y): the stamp of that cell,
      drawn, when it is painted, after what was drawn before it. */
  lemma PreviewAdvance(g: seq<seq<int>>, stamp: (nat, nat) -> seq<DrawOp>, y: nat, x: nat, drawn: seq<DrawOp>)
    requires y < |g| && x < |g[y]|
    requires g[y][x] != 0 ==> drawn == stamp(y, x)
    ensures g[y][x] != 0 ==> PreviewRow(g, stamp, y, x + 1) == PreviewRow(g, stamp, y, x) + drawn
    ensures g[y][x] == 0 ==> PreviewRow(g, stamp, y, x + 1) == PreviewRow(g, stamp, y, x)
  {
    if g[y][x] == 0 {
      assert PreviewRow(g, stamp, y, x + 1) == PreviewRow(g, stamp, y, x) + [];
    }
  }

  /** The stamp of a cell of the image, anchored at the cell. */
  lemma CellStampAt(g: seq<seq<int>>, baseSize: int, palette: Palette, adjusted: int, originX: int, originY: int,
                    y: nat, x: nat)
    requires baseSize != 0 && y < |g| && x < |g[y]|
    ensures CellStamp(g, baseSize, palette, adjusted, originX, originY)(y, x)
            == Stamp(g, baseSize, originX + x * adjusted, originY + y * adjusted, adjusted, palette.GetColor(g[y][x]))
  {
  }

  /** Everything RecursiveRenderer::render draws for the image g. */
  function RenderOps(g: seq<seq<int>>, baseSize: int, palette: Palette, scaleFactor: int, adjusted: int,
                     offsetX: int, offsetY: int): seq<DrawOp>
    requires baseSize != 0
  {
    var c := CenterOffset(scaleFactor, adjusted, baseSize);
    PreviewRows(g, CellStamp(g, baseSize, palette, adjusted, offsetX + c, offsetY + c), Span(baseSize), Span(baseSize))
  }

  /** A call of the preview is a call of the scan of the outer cells, their
      stamps anchored at the centred origin. */
  lemma RenderOpsMember(g: seq<seq<int>>, baseSize: int, palette: Palette, scaleFactor: int, adjusted: int,
                        offsetX: int, offsetY: int, c: int, op: DrawOp)
    requires baseSize != 0 && c == CenterOffset(scaleFactor, adjusted, baseSize)
    requires op in RenderOps(g, baseSize, palette, scaleFactor, adjusted, offsetX, offsetY)
    ensures op in PreviewRows(g, CellStamp(g, baseSize, palette, adjusted, offsetX + c, offsetY + c),
                              Span(baseSize), Span(baseSize))
  {
  }

  /** Where the stamp of outer cell (x, y) is anchored, on either axis. */
  function Anchor(offset: int, scaleFactor: int, adjusted: int, baseSize: int, index: int): int {
    offset + CenterOffset(scaleFactor, adjusted, baseSize) + index * adjusted
  }

  lemma AnchorAt(offset: int, scaleFactor: int, adjusted: int, baseSize: int, c: int, index: int)
    requires c == CenterOffset(scaleFactor, adjusted, baseSize)
    ensures Anchor(offset, scaleFactor, adjusted, baseSize, index) == offset + c + index * adjusted
  {
  }

  // ---------------------------------------------------------------------
  // render and renderPixelRecursive are both row-major scans of their cells

  function StampCell(g: seq<seq<int>>, x: int, y: int, pixelSize: int, color: Color): (nat, nat) -> seq<DrawOp> {
    (py: nat, px: nat) => StampCellOps(g, x, y, pixelSize, color, py, px)
  }

  function PreviewCell(g: seq<seq<int>>, stamp: (nat, nat) -> seq<DrawOp>): (nat, nat) -> seq<DrawOp> {
    (y: nat, x: nat) => PreviewCellOps(g, stamp, y, x)
  }

  function PaintedMark(g: seq<seq<int>>): (nat, nat) -> bool {
    (y: nat, x: nat) => IsPainted(g, y, x)
  }

  lemma {:induction false} StampRowScan(g: seq<seq<int>>, x: int, y: int, pixelSize: int, color: Color, py: nat, px: nat)
    ensures StampRow(g, x, y, pixelSize, color, py, px) == Row(StampCell(g, x, y, pixelSize, color), py, px)
  {
    if px > 0 {
      StampRowScan(g, x, y, pixelSize, color, py, px - 1);
      Concat(StampRow(g, x, y, pixelSize, color, py, px - 1), StampCellOps(g, x, y, pixelSize, color, py, px - 1),
             Row(StampCell(g, x, y, pixelSize, color), py, px - 1), StampCell(g, x, y, pixelSize, color)(py, px - 1));
    }
  }

  /** The loops of renderPixelRecursive visit the inner cells row by row,
      each row left to right. */
  lemma {:induction false} StampRowsScan(g: seq<seq<int>>, x: int, y: int, pixelSize: int, color: Color,
                                         n: nat, py: nat)
    ensures StampRows(g, x, y, pixelSize, color, n, py) == Rows(StampCell(g, x, y, pixelSize, color), n, py)
  {
    if py > 0 {
      StampRowsScan(g, x, y, pixelSize, color, n, py - 1);
      StampRowScan(g, x, y, pixelSize, color, py - 1, n);
      Concat(StampRows(g, x, y, pixelSize, color, n, py - 1), StampRow(g, x, y, pixelSize, color, py - 1, n),
             Rows(StampCell(g, x, y, pixelSize, color), n, py - 1), Row(StampCell(g, x, y, pixelSize, color), py - 1, n));
    }
  }

  lemma {:induction false} PreviewRowScan(g: seq<seq<int>>, stamp: (nat, nat) -> seq<DrawOp>, y: nat, x: nat)
    ensures PreviewRow(g, stamp, y, x) == Row(PreviewCell(g, stamp), y, x)
  {
    if x > 0 {
      PreviewRowScan(g, stamp, y, x - 1);
      Concat(PreviewRow(g, stamp, y, x - 1), PreviewCellOps(g, stamp, y, x - 1),
             Row(PreviewCell(g, stamp), y, x - 1), PreviewCell(g, stamp)(y, x - 1));
    }
  }

  /** The loops of render visit the outer cells row by row, each row left to
      right. */
  lemma {:induction false} PreviewRowsScan(g: seq<seq<int>>, stamp: (nat, nat) -> seq<DrawOp>, n: nat, y: nat)
    ensures PreviewRows(g, stamp, n, y) == Rows(PreviewCell(g, stamp), n, y)
  {
    if y > 0 {
      PreviewRowsScan(g, stamp, n, y - 1);
      PreviewRowScan(g, stamp, y - 1, n);
      Concat(PreviewRows(g, stamp, n, y - 1), PreviewRow(g, stamp, y - 1, n),
             Rows(PreviewCell(g, stamp), n, y - 1), Row(PreviewCell(g, stamp), y - 1, n));
    }
  }

  // ---------------------------------------------------------------------
  // Counting painted cells

  /** Painted cells in the n x n window of g. */
  function PaintedCount(g: seq<seq<int>>, n: nat): nat {
    Tally(PaintedMark(g), n, n)
  }

  /** Every cell of the n x n window of g is background. */
  predicate AllBackground(g: seq<seq<int>>, n: nat)
    requires Covers(g, n)
  {
    forall y, x :: 0 <= y < n && 0 <= x < n ==> g[y][x] == 0
  }

  /** No painted cell is counted exactly when the window is all background. */
  lemma PaintedCountZero(g: seq<seq<int>>, n: nat)
    requires Covers(g, n)
    ensures PaintedCount(g, n) == 0 <==> AllBackground(g, n)
  {
    TallyZero(PaintedMark(g), n, n);
    if PaintedCount(g, n) == 0 {
      forall y, x | 0 <= y < n && 0 <= x < n
        ensures g[y][x] == 0
      {
        assert !PaintedMark(g)(y, x);
      }
    }
  }

  // ---------------------------------------------------------------------
  // The size of a stamp and of the whole preview

  /** A stamp of an n x n window holds one fill per painted cell of it. */
  lemma StampRowsLength(g: seq<seq<int>>, x: int, y: int, pixelSize: int, color: Color, n: nat)
    ensures |StampRows(g, x, y, pixelSize, color, n, n)| == PaintedCount(g, n)
  {
    var cell := StampCell(g, x, y, pixelSize, color);
    StampRowsScan(g, x, y, pixelSize, color, n, n);
    RowsLength(cell, PaintedMark(g), 1, n, n);
  }

  /** A stamp holds one fill per painted cell, wherever it is put, whatever
      its size and colour. */
  lemma StampLength(g: seq<seq<int>>, baseSize: int, x: int, y: int, size: int, color: Color)
    requires baseSize != 0
    ensures |Stamp(g, baseSize, x, y, size, color)| == PaintedCount(g, Span(baseSize))
  {
    StampRowsLength(g, x, y, PixelSize(size, baseSize), color, Span(baseSize));
  }

  /** A preview scan whose painted cells all have stamps of k fills holds k
      fills per painted cell. */
  lemma PreviewRowsLength(g: seq<seq<int>>, stamp: (nat, nat) -> seq<DrawOp>, n: nat, k: nat)
    requires forall j: nat, i: nat :: j < n && i < n && IsPainted(g, j, i) ==> |stamp(j, i)| == k
    ensures |PreviewRows(g, stamp, n, n)| == PaintedCount(g, n) * k
  {
    var cell := PreviewCell(g, stamp);
    forall j: nat, i: nat | j < n && i < n
      ensures |cell(j, i)| == if PaintedMark(g)(j, i) then k else 0
    {
    }
    PreviewRowsScan(g, stamp, n, n);
    RowsLength(cell, PaintedMark(g), k, n, n);
  }

  /** The preview issues exactly k * k fills, k being the number of painted
      cells: one stamp per painted cell, one fill per painted cell in each. */
  lemma RenderLength(g: seq<seq<int>>, baseSize: int, palette: Palette, scaleFactor: int, adjusted: int,
                     offsetX: int, offsetY: int)
    requires baseSize != 0
    ensures var k := PaintedCount(g, Span(baseSize));
            |RenderOps(g, baseSize, palette, scaleFactor, adjusted, offsetX, offsetY)| == k * k
  {
    var n := Span(baseSize);
    var c := CenterOffset(scaleFactor, adjusted, baseSize);
    var k := PaintedCount(g, n);
    var stamp := CellStamp(g, baseSize, palette, adjusted, offsetX + c, offsetY + c);
    forall j: nat, i: nat | j < n && i < n && IsPainted(g, j, i)
      ensures |stamp(j, i)| == k
    {
      CellStampAt(g, baseSize, palette, adjusted, offsetX + c, offsetY + c, j, i);
      StampLength(g, baseSize, offsetX + c + i * adjusted, offsetY + c + j * adjusted, adjusted,
                  palette.GetColor(g[j][i]));
    }
    PreviewRowsLength(g, stamp, n, k);
  }

  /** The preview draws nothing at all exactly when the image is all
      background. */
  lemma RenderNothingForBackground(g: seq<seq<int>>, baseSize: int, palette: Palette, scaleFactor: int,
                                   adjusted: int, offsetX: int, offsetY: int)
    requires baseSize != 0 && Covers(g, Span(baseSize))
    ensures RenderOps(g, baseSize, palette, scaleFactor, adjusted, offsetX, offsetY) == []
            <==> AllBackground(g, Span(baseSize))
  {
    RenderLength(g, baseSize, palette, scaleFactor, adjusted, offsetX, offsetY);
    PaintedCountZero(g, Span(baseSize));
    var k := PaintedCount(g, Span(baseSize));
    if k > 0 {
      MultipleAtLeast(k, k);
    }
  }

  // ---------------------------------------------------------------------
  // What a stamp and the whole preview contain

  /** Every element of the stamp is the square of a painted inner cell: the
      one returned. */
  lemma StampRowsSound(g: seq<seq<int>>, x: int, y: int, pixelSize: int, color: Color, n: nat, op: DrawOp)
    returns (px: nat, py: nat)
    requires op in StampRows(g, x, y, pixelSize, color, n, n)
    ensures px < n && py < n && IsPainted(g, py, px) && op == SubFill(x, y, pixelSize, color, px, py)
  {
    StampRowsScan(g, x, y, pixelSize, color, n, n);
    py, px := RowsSound(StampCell(g, x, y, pixelSize, color), n, n, op);
    assert op in StampCellOps(g, x, y, pixelSize, color, py, px);
  }

  /** Every painted cell (px, py) of the image gets its square in the stamp:
      side pixelSize, at (x + px * pixelSize, y + py * pixelSize), in the
      stamp's colour. */
  lemma StampCovers(g: seq<seq<int>>, baseSize: int, x: int, y: int, size: int, color: Color, px: nat, py: nat)
    requires baseSize != 0 && Covers(g, Span(baseSize))
    requires px < Span(baseSize) && py < Span(baseSize) && g[py][px] != 0
    ensures SubFill(x, y, PixelSize(size, baseSize), color, px, py) in Stamp(g, baseSize, x, y, size, color)
  {
    var n, ps := Span(baseSize), PixelSize(size, baseSize);
    var cell := StampCell(g, x, y, ps, color);
    assert SubFill(x, y, ps, color, px, py) in cell(py, px);
    RowsCovers(cell, n, n, px, py, SubFill(x, y, ps, color, px, py));
    StampRowsScan(g, x, y, ps, color, n, n);
  }

  /** Conversely, every fill of a stamp is the square of a painted cell (the
      one returned), in the stamp's colour: the inner cells' own colours are
      never used. */
  lemma StampSound(g: seq<seq<int>>, baseSize: int, x: int, y: int, size: int, color: Color, op: DrawOp)
    returns (px: nat, py: nat)
    requires baseSize != 0
    requires op in Stamp(g, baseSize, x, y, size, color)
    ensures px < Span(baseSize) && py < Span(baseSize) && IsPainted(g, py, px)
    ensures op == SubFill(x, y, PixelSize(size, baseSize), color, px, py)
    ensures op.Fill? && op.color == color && op.rect.w == op.rect.h == PixelSize(size, baseSize) >= 1
  {
    px, py := StampRowsSound(g, x, y, PixelSize(size, baseSize), color, Span(baseSize), op);
  }

  /** Every element of a painted cell's stamp is in the preview scan. */
  lemma PreviewRowsCovers(g: seq<seq<int>>, stamp: (nat, nat) -> seq<DrawOp>, n: nat, oy: nat, ox: nat, op: DrawOp)
    requires oy < n && ox < n && IsPainted(g, oy, ox) && op in stamp(oy, ox)
    ensures op in PreviewRows(g, stamp, n, n)
  {
    assert op in PreviewCell(g, stamp)(oy, ox);
    RowsCovers(PreviewCell(g, stamp), n, n, ox, oy, op);
    PreviewRowsScan(g, stamp, n, n);
  }

  /** The stamp of a painted outer cell holds the square of each painted
      inner cell. */
  lemma CellStampCovers(g: seq<seq<int>>, baseSize: int, palette: Palette, adjusted: int,
                        originX: int, originY: int, ox: nat, oy: nat, px: nat, py: nat)
    requires baseSize != 0 && Covers(g, Span(baseSize))
    requires ox < Span(baseSize) && oy < Span(baseSize) && g[oy][ox] != 0
    requires px < Span(baseSize) && py < Span(baseSize) && g[py][px] != 0
    ensures SubFill(originX + ox * adjusted, originY + oy * adjusted, PixelSize(adjusted, baseSize),
                    palette.GetColor(g[oy][ox]), px, py)
            in CellStamp(g, baseSize, palette, adjusted, originX, originY)(oy, ox)
  {
    StampCovers(g, baseSize, originX + ox * adjusted, originY + oy * adjusted, adjusted, palette.GetColor(g[oy][ox]),
                px, py);
    CellStampAt(g, baseSize, palette, adjusted, originX, originY, oy, ox);
  }

  /** The preview scan anchored at (originX, originY) holds, for every
      painted outer cell and every painted inner cell, the inner cell's square
      of the outer cell's stamp. */
  lemma PreviewRowsCellCovers(g: seq<seq<int>>, baseSize: int, palette: Palette, adjusted: int,
                              originX: int, originY: int, ox: nat, oy: nat, px: nat, py: nat)
    requires baseSize != 0 && Covers(g, Span(baseSize))
    requires ox < Span(baseSize) && oy < Span(baseSize) && g[oy][ox] != 0
    requires px < Span(baseSize) && py < Span(baseSize) && g[py][px] != 0
    ensures SubFill(originX + ox * adjusted, originY + oy * adjusted, PixelSize(adjusted, baseSize),
                    palette.GetColor(g[oy][ox]), px, py)
            in PreviewRows(g, CellStamp(g, baseSize, palette, adjusted, originX, originY), Span(baseSize), Span(baseSize))
  {
    var op := SubFill(originX + ox * adjusted, originY + oy * adjusted, PixelSize(adjusted, baseSize),
                      palette.GetColor(g[oy][ox]), px, py);
    CellStampCovers(g, baseSize, palette, adjusted, originX, originY, ox, oy, px, py);
    PreviewRowsCovers(g, CellStamp(g, baseSize, palette, adjusted, originX, originY), Span(baseSize), oy, ox, op);
  }

  /** For every painted outer cell (ox, oy) and every painted inner cell
      (px, py), the preview fills the inner cell's square of the stamp
      anchored at the outer cell, in the outer cell's palette colour. */
  lemma RenderCovers(g: seq<seq<int>>, baseSize: int, palette: Palette, scaleFactor: int, adjusted: int,
                     offsetX: int, offsetY: int, ox: nat, oy: nat, px: nat, py: nat)
    requires baseSize != 0 && Covers(g, Span(baseSize))
    requires ox < Span(baseSize) && oy < Span(baseSize) && g[oy][ox] != 0
    requires px < Span(baseSize) && py < Span(baseSize) && g[py][px] != 0
    ensures SubFill(Anchor(offsetX, scaleFactor, adjusted, baseSize, ox),
                    Anchor(offsetY, scaleFactor, adjusted, baseSize, oy),
                    PixelSize(adjusted, baseSize), palette.GetColor(g[oy][ox]), px, py)
            in RenderOps(g, baseSize, palette, scaleFactor, adjusted, offsetX, offsetY)
  {
    var c := CenterOffset(scaleFactor, adjusted, baseSize);
    AnchorAt(offsetX, scaleFactor, adjusted, baseSize, c, ox);
    AnchorAt(offsetY, scaleFactor, adjusted, baseSize, c, oy);
    PreviewRowsCellCovers(g, baseSize, palette, adjusted, offsetX + c, offsetY + c, ox, oy, px, py);
  }

  /** A cell contributes to the preview only when painted, and then its stamp. */
  lemma PreviewCellMember(g: seq<seq<int>>, stamp: (nat, nat) -> seq<DrawOp>, oy: nat, ox: nat, op: DrawOp)
    requires op in PreviewCellOps(g, stamp, oy, ox)
    ensures IsPainted(g, oy, ox) && op in stamp(oy, ox)
  {
  }

  /** Every fill a painted outer cell puts down is a square of its stamp. */
  lemma PreviewCellSound(g: seq<seq<int>>, baseSize: int, palette: Palette, adjusted: int,
                         originX: int, originY: int, oy: nat, ox: nat, op: DrawOp)
    returns (px: nat, py: nat)
    requires baseSize != 0
    requires op in PreviewCellOps(g, CellStamp(g, baseSize, palette, adjusted, originX, originY), oy, ox)
    ensures IsPainted(g, oy, ox) && px < Span(baseSize) && py < Span(baseSize) && IsPainted(g, py, px)
    ensures op == SubFill(originX + ox * adjusted, originY + oy * adjusted, PixelSize(adjusted, baseSize),
                          palette.GetColor(g[oy][ox]), px, py)
  {
    PreviewCellMember(g, CellStamp(g, baseSize, palette, adjusted, originX, originY), oy, ox, op);
    CellStampAt(g, baseSize, palette, adjusted, originX, originY, oy, ox);
    px, py := StampSound(g, baseSize, originX + ox * adjusted, originY + oy * adjusted, adjusted,
                         palette.GetColor(g[oy][ox]), op);
  }

  /** Every element of the preview scan comes from one of its cells. */
  lemma PreviewRowsSound(g: seq<seq<int>>, stamp: (nat, nat) -> seq<DrawOp>, n: nat, op: DrawOp)
    returns (oy: nat, ox: nat)
    requires op in PreviewRows(g, stamp, n, n)
    ensures oy < n && ox < n && op in PreviewCellOps(g, stamp, oy, ox)
  {
    PreviewRowsScan(g, stamp, n, n);
    oy, ox := RowsSound(PreviewCell(g, stamp), n, n, op);
  }

  /** Conversely, every fill of the preview is the square of a painted inner
      cell (px, py) within the stamp of a painted outer cell (ox, oy), in the
      outer cell's palette colour, the stamp being anchored where the outer
      cell's pulsed square starts; in particular it is a square of side
      PixelSize(adjusted, baseSize), at least one pixel. */
  lemma RenderSound(g: seq<seq<int>>, baseSize: int, palette: Palette, scaleFactor: int, adjusted: int,
                    offsetX: int, offsetY: int, op: DrawOp)
    returns (ox: nat, oy: nat, px: nat, py: nat)
    requires baseSize != 0
    requires op in RenderOps(g, baseSize, palette, scaleFactor, adjusted, offsetX, offsetY)
    ensures ox < Span(baseSize) && oy < Span(baseSize) && IsPainted(g, oy, ox)
    ensures px < Span(baseSize) && py < Span(baseSize) && IsPainted(g, py, px)
    ensures op == SubFill(Anchor(offsetX, scaleFactor, adjusted, baseSize, ox),
                          Anchor(offsetY, scaleFactor, adjusted, baseSize, oy),
                          PixelSize(adjusted, baseSize), palette.GetColor(g[oy][ox]), px, py)
    ensures op.Fill? && op.rect.w == op.rect.h == PixelSize(adjusted, baseSize) >= 1
  {
    var c := CenterOffset(scaleFactor, adjusted, baseSize);
    RenderOpsMember(g, baseSize, palette, scaleFactor, adjusted, offsetX, offsetY, c, op);
    oy, ox := PreviewRowsSound(g, CellStamp(g, baseSize, palette, adjusted, offsetX + c, offsetY + c),
                               Span(baseSize), op);
    px, py := PreviewCellSound(g, baseSize, palette, adjusted, offsetX + c, offsetY + c, oy, ox, op);
  }

  /** The preview renderer: the grid size it reads, the side of its output
      square, and the integer scale between the two. */
  class RecursiveRenderer {
    const baseSize: int
    const outputSize: int
    const scaleFactor: int

    /** scaleFactor is outputSize / baseSize under C++ division: with
      non-negative sizes, the largest factor that keeps scaleFactor *
      baseSize within outputSize. */
    constructor (baseSize: int, outputSize: int)
      requires baseSize != 0
      ensures this.baseSize == baseSize && this.outputSize == outputSize
      ensures scaleFactor == TruncDiv(outputSize, baseSize)
      ensures baseSize > 0 && outputSize >= 0 ==>
                scaleFactor * baseSize <= outputSize < scaleFactor * baseSize + baseSize
    {
      this.baseSize := baseSize;
      this.outputSize := outputSize;
      scaleFactor := TruncDiv(outputSize, baseSize);
      TruncDivBounds(outputSize, baseSize);
    }

    /** The draw calls of RecursiveRenderer::render for the editor's current
      image, with the pulse already applied to the scale. Reads the editor and
      the palette and changes neither. */
    method Render(editor: PixelEditor, palette: Palette, offsetX: int, offsetY: int, adjustedScaleFactor: int)
      returns (ops: seq<DrawOp>)
      requires baseSize != 0 && editor.Valid() && baseSize <= editor.gridSize
      ensures ops == RenderOps(editor.GetPixelData(), baseSize, palette, scaleFactor, adjustedScaleFactor,
                               offsetX, offsetY)
    {
      var pixelData := editor.GetPixelData();
      ghost var n := Span(baseSize);
      SquareCovers(pixelData, editor.gridSize, n);
      var centerOffsetX := TruncDiv(scaleFactor * baseSize - adjustedScaleFactor * baseSize, 2);
      var centerOffsetY := TruncDiv(scaleFactor * baseSize - adjustedScaleFactor * baseSize, 2);
      ghost var stamp := CellStamp(pixelData, baseSize, palette, adjustedScaleFactor,
                                   offsetX + centerOffsetX, offsetY + centerOffsetY);
      ops := [];
      var y := 0;
      while y < baseSize
        invariant 0 <= y <= n
        invariant ops == PreviewRows(pixelData, stamp, n, y)
      {
        var rowOps := RenderRow(pixelData, palette, offsetX + centerOffsetX, offsetY + centerOffsetY, adjustedScaleFactor, y);
        PreviewRowsStep(pixelData, stamp, n, y);
        ops := ops + rowOps;
        y := y + 1;
      }
      assert y == n;
      assert centerOffsetX == centerOffsetY == CenterOffset(scaleFactor, adjustedScaleFactor, baseSize);
      assert ops == RenderOps(pixelData, baseSize, palette, scaleFactor, adjustedScaleFactor, offsetX, offsetY);
    }

    /** Row y of the outer scan of render, over the editor's image. */
    method RenderRow(pixelData: seq<seq<int>>, palette: Palette, originX: int, originY: int, adjustedScaleFactor: int,
                     y: int)
      returns (ops: seq<DrawOp>)
      requires baseSize != 0 && Covers(pixelData, Span(baseSize)) && 0 <= y < baseSize
      ensures ops == PreviewRow(pixelData, CellStamp(pixelData, baseSize, palette, adjustedScaleFactor, originX, originY),
                                y, Span(baseSize))
    {
      ghost var stamp := CellStamp(pixelData, baseSize, palette, adjustedScaleFactor, originX, originY);
      ops := [];
      var x := 0;
      while x < baseSize
        invariant 0 <= x <= baseSize
        invariant ops == PreviewRow(pixelData, stamp, y, x)
      {
        var sourceColorIndex := pixelData[y][x];
        if sourceColorIndex != 0 {
          var pixelX := originX + x * adjustedScaleFactor;
          var pixelY := originY + y * adjustedScaleFactor;
          var sourceColor := palette.GetColor(sourceColorIndex);
          var pixelOps := RenderPixelRecursive(pixelData, pixelX, pixelY, adjustedScaleFactor, sourceColor);
          CellStampAt(pixelData, baseSize, palette, adjustedScaleFactor, originX, originY, y, x);
          PreviewAdvance(pixelData, stamp, y, x, pixelOps);
          ops := ops + pixelOps;
        } else {
          PreviewAdvance(pixelData, stamp, y, x, []);
        }
        x := x + 1;
      }
      assert x == Span(baseSize);
    }

    /** The draw calls of renderPixelRecursive: the stamp of the editor's
      image pixelData of the given size at (x, y), every square in
      sourceColor. */
    method RenderPixelRecursive(pixelData: seq<seq<int>>, x: int, y: int, size: int, sourceColor: Color)
      returns (ops: seq<DrawOp>)
      requires baseSize != 0 && Covers(pixelData, Span(baseSize))
      ensures ops == Stamp(pixelData, baseSize, x, y, size, sourceColor)
    {
      ghost var n := Span(baseSize);
      var pixelSize := TruncDiv(size, baseSize);
      if pixelSize < 1 {
        pixelSize := 1;
      }
      assert pixelSize == PixelSize(size, baseSize);
      ops := [];
      var py := 0;
      while py < baseSize
        invariant 0 <= py <= n
        invariant ops == StampRows(pixelData, x, y, pixelSize, sourceColor, n, py)
      {
        ghost var before := ops;
        var px := 0;
        while px < baseSize
          invariant 0 <= px <= n
          invariant ops == before + StampRow(pixelData, x, y, pixelSize, sourceColor, py, px)
        {
          StampAdvance(pixelData, x, y, pixelSize, sourceColor, before, py, px);
          var colorIndex := pixelData[py][px];
          if colorIndex != 0 {
            ops := ops + [SubFill(x, y, pixelSize, sourceColor, px, py)];
          }
          px := px + 1;
        }
        assert px == n;
        StampRowsStep(pixelData, x, y, pixelSize, sourceColor, n, py);
        py := py + 1;
      }
    }
  }
}
