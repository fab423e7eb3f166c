/** The application's input routing (PixelRecursorApp::handleEvents): where the
    three components sit on the 800 x 600 window, a left click offered to the
    palette first and to the editing grid only when the palette declines it,
    and the 'c' key clearing the grid. */
module App {
  import opened Draw
  import opened Editor
  import opened Palettes

  const EditorCellSize := 40
  const PaletteCellSize := 30
  const EditorX := 50
  const EditorY := 80
  const PaletteX := 50
  const PaletteY := 450

  /** The side of the grid the application creates. */
  const GridSize := 8

  /** Every cell of the image holds an index of the sixteen-colour palette:
      the grid is only ever painted with the palette's selection, or cleared. */
  predicate AllIndices(g: seq<seq<int>>) {
    forall y, x :: 0 <= y < |g| && 0 <= x < |g[y]| ==> 0 <= g[y][x] < 16
  }

  /** The image the application starts from, and the one 'c' leaves, holds
      only palette indices. */
  lemma BlankAllIndices(n: nat)
    ensures AllIndices(Blank(n))
  {
  }

  /** Painting a cell with a palette index keeps every cell a palette index. */
  lemma PaintedAllIndices(g: seq<seq<int>>, x: nat, y: nat, v: int)
    requires y < |g| && x < |g[y]| && AllIndices(g) && 0 <= v < 16
    ensures AllIndices(Painted(g, x, y, v))
  {
  }

  /** The swatch block (rows 450 to 569) lies below the 8 x 8 grid (rows 80
      to 399), so a click that the palette takes is never one the grid would
      have taken: routing the palette first loses no edit. */
  lemma ClickRegionsDisjoint(mouseX: int, mouseY: int)
    ensures SwatchAt(mouseX, mouseY, PaletteX, PaletteY, PaletteCellSize, 16).Some?
            ==> CellAt(mouseX, mouseY, EditorX, EditorY, EditorCellSize, GridSize).None?
  {
    var relY := mouseY - EditorY;
    if relY >= 0 && CellAt(mouseX, mouseY, EditorX, EditorY, EditorCellSize, GridSize).Some? {
      TruncDivNonNegative(relY, EditorCellSize);
      DivBand(relY, EditorCellSize, relY / EditorCellSize);
      assert relY < 320;
    }
  }

  /** A left button press at (mouseX, mouseY): a hit on the palette selects a
      colour and leaves the grid alone; any other click goes to the grid,
      which paints the cell under the mouse, if any, with the selected
      colour. */
  method HandleMouseDown(editor: PixelEditor, palette: Palette, mouseX: int, mouseY: int)
    requires editor.Valid() && palette.Valid()
    modifies editor, palette
    ensures editor.Valid() && palette.Valid()
    ensures AllIndices(old(editor.GetPixelData())) ==> AllIndices(editor.GetPixelData())
    ensures match SwatchAt(mouseX, mouseY, PaletteX, PaletteY, PaletteCellSize, 16)
              case Some(i) =>
                && palette.currentColorIndex == i
                && editor.GetPixelData() == old(editor.GetPixelData())
              case None =>
                && palette.currentColorIndex == old(palette.currentColorIndex)
                && editor.GetPixelData()
                   == match CellAt(mouseX, mouseY, EditorX, EditorY, EditorCellSize, editor.gridSize)
                        case Some((x, y)) => Painted(old(editor.GetPixelData()), x, y, old(palette.currentColorIndex))
                        case None => old(editor.GetPixelData())
  {
    SwatchAtInRange(mouseX, mouseY, PaletteX, PaletteY, PaletteCellSize);
    var selected := palette.HandleClick(mouseX, mouseY, PaletteX, PaletteY, PaletteCellSize);
    if !selected {
      var painted := editor.HandleClick(mouseX, mouseY, EditorX, EditorY, EditorCellSize,
                                        palette.GetCurrentColorIndex());
    }
  }

  /** A key press: 'c' clears the grid; every other key changes nothing. */
  method HandleKeyDown(editor: PixelEditor, key: char)
    requires editor.Valid()
    modifies editor
    ensures editor.Valid()
    ensures AllIndices(old(editor.GetPixelData())) ==> AllIndices(editor.GetPixelData())
    ensures editor.GetPixelData() == if key == 'c' then Blank(editor.gridSize) else old(editor.GetPixelData())
  {
    if key == 'c' {
      editor.Clear();
    }
  }
}
