# Recursive pixel editor: a verified model

This project models the core of a small SDL pixel-art editor in Dafny. The
editor has three components:

- **PixelEditor**: an 8 x 8 grid of palette indices. The user paints cells
  by clicking them and clears the grid with the `c` key. Its own `render`
  draws a uniform grid: light grey (240) for an empty cell, placeholder grey
  (200) for a painted one, and a mid-grey (128) grid line around each. The
  application never calls that `render`: it draws the grid itself, in
  palette colours (left out below). `PixelEditor::render` is still modelled,
  as `Editor.PixelEditor.Render` and `Editor.GridOps`.
- **Palette**: the sixteen PICO-8 colours, laid out as a 4 x 4 block of
  swatches. A click selects a colour. The selected swatch has a two-pixel
  white border.
- **RecursiveRenderer**: a preview of the image made of the image itself.
  Every painted cell (palette index other than 0) of the grid becomes a
  scaled-down copy of the whole grid. In that copy, every painted cell is a
  square of the outer cell's palette colour. The copies pulse: each cell is
  `adjustedScaleFactor` pixels wide, and the whole picture is shifted to
  stay centred on the nominal square of `scaleFactor * baseSize` pixels.

Drawing is recorded rather than performed. Each render method returns the
sequence of draw calls it would issue, as `DrawOp` values:
`Fill(rect, colour)` for a colour set followed by `SDL_RenderFillRect`, and
`Outline(rect, colour)` for a colour set followed by `SDL_RenderDrawRect`.
Each render method is proved equal to a specification function that gives
the calls in loop order. The properties of the drawing are proved about
those functions.

C++ integer division truncates toward zero. It is modelled as
`Draw.TruncDiv`, because the hit tests, the stamp size and the centring
offset all divide values whose sign is not fixed by the types.

Modules:

| module | file | models |
|---|---|---|
| `Draw` | draw.dfy | colours, rectangles, draw calls, C++ division |
| `Scan` | scan.dfy | the row-major double loop of `PixelEditor::render`, `RecursiveRenderer::render` and `renderPixelRecursive`, over an arbitrary per-cell block; `Editor.GridOps` uses it directly, and `Preview` keeps its own copies (`StampRows`, `PreviewRows`), proved equal to `Scan.Rows` by `StampRowsScan` and `PreviewRowsScan`; the palette's single loop does not use it |
| `Editor` | editor.dfy | `PixelEditor` (class) and its specification functions |
| `Palettes` | palette.dfy | `Palette` (class) and its specification functions |
| `Preview` | preview.dfy | `RecursiveRenderer` (class) and its specification functions |
| `App` | app.dfy | the application's click and key routing and its layout constants |

## Model

| member | source | states |
|---|---|---|
| Draw.TruncDivBounds | src/PixelEditor.cpp:58-59 | C++ `/` as modelled: the truncated quotient times the divisor never exceeds the dividend in magnitude, falls short of it by less than the divisor, and has the dividend's sign |
| Draw.TruncDivNonNegative | src/PixelEditor.cpp:56-59 | after the negative-offset guard, C++ division by a positive cell size is ordinary floor division and is non-negative |
| Editor.Blank | src/PixelEditor.cpp:3-5 | the image built by the constructor is n x n and every cell holds index 0 |
| Editor.CellAt | src/PixelEditor.cpp:52-67 | the hit test answers only for a click right of and below the grid origin, and then with a cell inside the grid |
| Editor.CellAtInvertsLayout | src/PixelEditor.cpp:52-67 | with a positive cell size, a click selects cell (x, y) exactly when it lies inside the rectangle that render draws for (x, y) |
| Editor.GridOpsLayout | src/PixelEditor.cpp:26-50 | render issues 2 * n * n calls; at position 2 * (y * n + x) is cell (x, y)'s fill, light grey when empty and placeholder grey when painted, and right after it is the cell's mid-grey outline |
| Editor.PixelEditor.constructor | src/PixelEditor.cpp:3-5 | a new editor of size n holds the blank n x n image |
| Editor.PixelEditor.GetPixelData | src/PixelEditor.h:27 | the image handed out is always gridSize x gridSize |
| Editor.PixelEditor.GetPixel | src/PixelEditor.cpp:7-12 | inside the grid, the stored index; outside it, 0 |
| Editor.PixelEditor.SetPixel | src/PixelEditor.cpp:14-18 | inside the grid, exactly cell (x, y) changes, to the given index; outside it, nothing changes |
| Editor.PixelEditor.Clear | src/PixelEditor.cpp:20-24 | afterwards the image is the blank image of the same size |
| Editor.PixelEditor.HandleClick | src/PixelEditor.cpp:52-67 | returns true exactly when the hit test finds a cell; that cell, and only that cell, is painted with the given index; a miss changes nothing |
| Editor.PixelEditor.Render | src/PixelEditor.cpp:26-50 | the calls issued are the grid's calls, row by row and left to right (GridOps) |
| Palettes.Pico8Colors | src/Palette.cpp:7-27 | the table holds sixteen opaque colours |
| Palettes.SwatchAt | src/Palette.cpp:80-98 | a hit needs a click right of and below the origin, and is an index below the table size |
| Palettes.SwatchAtInRange | src/Palette.cpp:86-92 | with a positive cell size, every hit is a colour index between 0 and 15 |
| Palettes.SwatchAtInvertsLayout | src/Palette.cpp:80-98 | with a positive cell size, a click selects colour i exactly when it lies inside the swatch that render draws for i |
| Palettes.PaletteOpsLength | src/Palette.cpp:42-78 | render issues two calls per swatch, plus one more when the selected index is among them |
| Palettes.PaletteOpsSwatch | src/Palette.cpp:42-78 | every swatch i is filled with colour i at column i % 4, row i / 4; the selected one gets white outlines at growth 0 and 1, every other one a mid-grey outline |
| Palettes.PaletteOpsWhiteOnlyOnSelection | src/Palette.cpp:60-71 | a white outline appears only if the selection is among the swatches drawn, and only around the selected swatch, at growth 0 or 1 |
| Palettes.Palette.constructor | src/Palette.cpp:3-5 | a new palette holds the sixteen PICO-8 colours with colour 0 selected |
| Palettes.Palette.GetColor | src/Palette.cpp:29-34 | a colour of the table for an index in range; opaque black otherwise |
| Palettes.Palette.GetCurrentColorIndex | src/Palette.h:14 | the selection is always an index of the table |
| Palettes.Palette.GetColorCount | src/Palette.h:20 | the table holds sixteen colours |
| Palettes.Palette.SetCurrentColorIndex | src/Palette.cpp:36-40 | an index in range becomes the selection; any other index leaves it unchanged |
| Palettes.Palette.HandleClick | src/Palette.cpp:80-98 | returns true exactly when the hit test finds a swatch; a hit with a non-negative index selects it, and any other click leaves the selection unchanged |
| Palettes.Palette.Render | src/Palette.cpp:42-78 | the calls issued are the sixteen swatches' calls, in index order (PaletteOps) |
| Preview.PixelSize | src/RecursiveRenderer.cpp:43-48 | a stamp's squares are size / baseSize pixels (C++ division) when that is at least one, and exactly one pixel otherwise |
| Preview.CenterOffsetCentres | src/RecursiveRenderer.cpp:17-19 | the centring offset splits the gap between the nominal and the pulsed side evenly, to within one pixel; it is 0 with no pulse, and never positive while the pulse enlarges |
| Preview.StampLength | src/RecursiveRenderer.cpp:50-68 | a stamp holds exactly one fill per painted cell of the image, whatever its place, size and colour |
| Preview.StampCovers | src/RecursiveRenderer.cpp:50-68 | every painted cell (px, py) gets its square in the stamp: side pixelSize, at (x + px * pixelSize, y + py * pixelSize), in the stamp's colour |
| Preview.StampSound | src/RecursiveRenderer.cpp:50-68 | conversely, every call in a stamp is such a square of a painted cell, in the stamp's colour |
| Preview.RenderLength | src/RecursiveRenderer.cpp:22-37 | the preview issues exactly k * k fills, where k is the number of painted cells |
| Preview.RenderNothingForBackground | src/RecursiveRenderer.cpp:22-37 | the preview draws nothing exactly when every cell is background |
| Preview.RenderCovers | src/RecursiveRenderer.cpp:22-37 | for every painted outer cell and every painted inner cell, the preview fills that inner square of the outer cell's stamp, in the outer cell's palette colour, anchored at the outer cell's centred place |
| Preview.RenderSound | src/RecursiveRenderer.cpp:22-37 | conversely, every call of the preview is such a fill: a square of side at least one pixel, for some painted outer cell and some painted inner cell |
| Preview.RecursiveRenderer.constructor | src/RecursiveRenderer.cpp:3-7 | scaleFactor is outputSize / baseSize in C++ division; for non-negative sizes it is the largest factor with scaleFactor * baseSize <= outputSize |
| Preview.RecursiveRenderer.Render | src/RecursiveRenderer.cpp:9-38 | the calls issued are the preview's calls in loop order (RenderOps) |
| Preview.RecursiveRenderer.RenderRow | src/RecursiveRenderer.cpp:23-36 | one pass of the inner loop of render issues the stamps of row y's painted cells, left to right |
| Preview.RecursiveRenderer.RenderPixelRecursive | src/RecursiveRenderer.cpp:40-69 | the calls issued are the stamp of the image at (x, y) of the given size and colour (Stamp) |
| App.ClickRegionsDisjoint | src/main.cpp:57-63 | with the application's layout, no click that the palette takes would also have hit the editing grid, so asking the palette first loses no edit |
| App.BlankAllIndices | src/PixelEditor.cpp:3-5 | the image the application starts from holds only palette indices (0 to 15) |
| App.PaintedAllIndices | src/PixelEditor.cpp:14-18 | painting one cell with a palette index keeps every cell a palette index |
| App.HandleMouseDown | src/main.cpp:52-66 | a click on a swatch selects that colour and leaves the image alone; any other click paints the cell under the mouse, if any, with the colour selected before the click, and keeps the selection; a grid holding only palette indices still holds only palette indices |
| App.HandleKeyDown | src/main.cpp:67-70 | the `c` key clears the grid to the blank image; every other key changes nothing; a grid holding only palette indices still holds only palette indices |

## Left out

- The pulsing zoom (`getPulsatingScaleFactor`, src/RecursiveRenderer.cpp:71-83) is left out. It reads the SDL clock and computes with `sin` in floating point. `Render` takes its integer result, `adjustedScaleFactor`, as a parameter. The start time taken in the constructor is left out for the same reason.
- SDL itself is left out: the window, the renderer, the event queue and the draw calls. Each render method returns its draw calls as a sequence of `DrawOp` values instead.
- The application's main loop, its window and SDL set-up, `render`, `renderUI` and the labels are not part of this model. Neither is `renderEditorGrid` (src/main.cpp:95-118), the application's own drawing of the grid in palette colours; the application draws the grid only this way and never calls `PixelEditor::render`. Only the click and key routing of `handleEvents` and the layout constants are modelled, in `App`.
- App.HandleMouseDown: models a left-button press only. The check of src/main.cpp:53 that drops every other mouse button is left out; another button changes nothing.
- Editor.PixelEditor.constructor: `gridSize` is a `nat`, but the C++ constructor takes an `int`. For a negative size, `std::vector` converts it to a huge unsigned count and throws `std::length_error`. The `nat` type excludes that error path; the application always passes 8.
- 32-bit `int` overflow is not modelled. Every integer is unbounded. With the application's constants (an 8 x 8 grid, cells of at most 40 pixels, a 64-pixel preview), no computed coordinate comes near the 32-bit range.
- Division by a zero cell size or a zero `baseSize` is undefined behaviour in C++. The members that divide therefore require a non-zero divisor. The application always passes 40, 30 and 8.
- Preview.RecursiveRenderer.Render: requires `baseSize <= gridSize`. Without it, the C++ code indexes `pixelData` out of range, which is undefined behaviour. The application builds both with 8.
- Preview.RecursiveRenderer.RenderRow: the inner loop of `render`, factored out as its own method. It and `RenderPixelRecursive` take the editor's image (`getPixelData()`) as a value rather than the editor object. The palette argument of `renderPixelRecursive` is unused in the source and is dropped.
- Default arguments of the constructors (src/PixelEditor.h:7, src/RecursiveRenderer.h:8) are not modelled. Every constructor takes its sizes explicitly.
- The accessors `getGridSize`, `getOutputSize` and `getBaseSize` are not modelled as members. They return the `const` fields `gridSize`, `outputSize` and `baseSize`, which Dafny code reads directly.
- Palette indices are stored unchecked, as the source does: `SetPixel` accepts any integer, and `GetColor` maps an index outside the table to opaque black.
