/** The colour palette (Palette): a fixed table of sixteen colours, the index
    of the selected one, its 4 x 4 swatch layout and the hit test that maps a
    click on that layout back to a colour. */
module Palettes {
  import opened Draw

  /** The PICO-8 inspired table installed by initializePico8Colors. */
  function Pico8Colors(): (table: seq<Color>)
    ensures |table| == 16
    ensures forall i :: 0 <= i < 16 ==> table[i].a == 255
  {
    [ Color(0, 0, 0, 255),        // black
      Color(29, 43, 83, 255),     // dark blue
      Color(126, 37, 83, 255),    // dark purple
      Color(0, 135, 81, 255),     // dark green
      Color(171, 82, 54, 255),    // brown
      Color(95, 87, 79, 255),     // dark grey
      Color(194, 195, 199, 255),  // light grey
      Color(255, 241, 232, 255),  // white
      Color(255, 0, 77, 255),     // red
      Color(255, 163, 0, 255),    // orange
      Color(255, 236, 39, 255),   // yellow
      Color(0, 228, 54, 255),     // green
      Color(41, 173, 255, 255),   // blue
      Color(131, 118, 156, 255),  // indigo
      Color(255, 119, 168, 255),  // pink
      Color(255, 204, 170, 255) ] // peach
  }

  /** The swatches are laid out four to a row: swatch i sits in column
      i % 4 and row i / 4 of a grid of square cells
      whose top-left corner is (originX, originY). */
  function SwatchRect(originX: int, originY: int, cellSize: int, i: nat): Rect {
    Rect(originX + (i % 4) * cellSize, originY + (i / 4) * cellSize, cellSize, cellSize)
  }

  /** r grown by b pixels on every side. */
  function Grown(r: Rect, b: int): Rect {
    Rect(r.x - b, r.y - b, r.w + 2 * b, r.h + 2 * b)
  }

  /** The hit test of handleClick over a palette of count colours: the index
      of the swatch under the mouse, if any. Offsets are divided by the cell
      size the way C++ does. */
  function SwatchAt(mouseX: int, mouseY: int, paletteX: int, paletteY: int, cellSize: int, count: int)
    : (r: Option<int>)
    requires cellSize != 0
    ensures r.Some? ==> mouseX >= paletteX && mouseY >= paletteY && r.value < count
  {
    var relX := mouseX - paletteX;
    var relY := mouseY - paletteY;
    if relX < 0 || relY < 0 then None
    else
      var col := TruncDiv(relX, cellSize);
      var row := TruncDiv(relY, cellSize);
      if col >= 4 || row >= 4 then None
      else
        var index := row * 4 + col;
        if index < count then Some(index) else None
  }

  /** With a positive cell size every hit is a real colour index. */
  lemma SwatchAtInRange(mouseX: int, mouseY: int, paletteX: int, paletteY: int, cellSize: int)
    requires cellSize > 0
    ensures var r := SwatchAt(mouseX, mouseY, paletteX, paletteY, cellSize, 16);
            r.Some? ==> 0 <= r.value < 16
  {
    var relX, relY := mouseX - paletteX, mouseY - paletteY;
    if relX >= 0 && relY >= 0 {
      TruncDivNonNegative(relX, cellSize);
      TruncDivNonNegative(relY, cellSize);
      var col, row := TruncDiv(relX, cellSize), TruncDiv(relY, cellSize);
      assert 0 <= col && 0 <= row;
    }
  }

  /** With a positive cell size the hit test inverts the swatch layout: a
      click selects colour i exactly when it falls inside swatch i. */
  lemma SwatchAtInvertsLayout(mouseX: int, mouseY: int, paletteX: int, paletteY: int, cellSize: int, i: nat)
    requires cellSize > 0 && i < 16
    ensures SwatchAt(mouseX, mouseY, paletteX, paletteY, cellSize, 16) == Some(i) <==>
            Inside(mouseX, mouseY, SwatchRect(paletteX, paletteY, cellSize, i))
  {
    var relX, relY := mouseX - paletteX, mouseY - paletteY;
    var col, row := i % 4, i / 4;
    assert i == row * 4 + col;
    MultipleAtLeast(col, cellSize);
    MultipleAtLeast(row, cellSize);
    assert col * cellSize >= 0 && row * cellSize >= 0;
    if relX >= 0 && relY >= 0 {
      TruncDivNonNegative(relX, cellSize);
      TruncDivNonNegative(relY, cellSize);
      DivBand(relX, cellSize, col);
      DivBand(relY, cellSize, row);
      var c, r := relX / cellSize, relY / cellSize;
      if c < 4 && r < 4 && r * 4 + c == i {
        assert c == col && r == row;
      }
    }
  }

  /** The draw calls for swatch i: its fill, then either two white outlines
      (the selected swatch, at growth 0 and 1) or one mid-grey outline. */
  function SwatchOps(colors: seq<Color>, current: int, originX: int, originY: int, cellSize: int, i: nat)
    : seq<DrawOp>
    requires i < |colors|
  {
    var rect := SwatchRect(originX, originY, cellSize, i);
    [Fill(rect, colors[i])]
    + if i == current then [Outline(Grown(rect, 0), White), Outline(Grown(rect, 1), White)]
      else [Outline(rect, MidGray)]
  }

  /** The draw calls for the first count swatches. */
  function PaletteOps(colors: seq<Color>, current: int, originX: int, originY: int, cellSize: int, count: nat)
    : seq<DrawOp>
    requires count <= |colors|
  {
    if count == 0 then []
    else PaletteOps(colors, current, originX, originY, cellSize, count - 1)
         + SwatchOps(colors, current, originX, originY, cellSize, count - 1)
  }

  /** Two calls per swatch, plus one more when the selection is among them. */
  lemma {:induction false} PaletteOpsLength(colors: seq<Color>, current: int, originX: int, originY: int,
                                            cellSize: int, count: nat)
    requires count <= |colors|
    ensures |PaletteOps(colors, current, originX, originY, cellSize, count)|
            == 2 * count + (if 0 <= current < count then 1 else 0)
  {
    if count > 0 {
      PaletteOpsLength(colors, current, originX, originY, cellSize, count - 1);
    }
  }

  /** Every swatch i among the first count is filled with colours[i] at its
      place in the 4 x 4 layout, with two white outlines when it is the
      selected one and one mid-grey outline otherwise. */
  lemma {:induction false} PaletteOpsSwatch(colors: seq<Color>, current: int, originX: int, originY: int,
                                            cellSize: int, count: nat, i: nat)
    requires i < count <= |colors|
    ensures var ops := PaletteOps(colors, current, originX, originY, cellSize, count);
            var rect := SwatchRect(originX, originY, cellSize, i);
            && Fill(rect, colors[i]) in ops
            && (i == current ==> Outline(rect, White) in ops && Outline(Grown(rect, 1), White) in ops)
            && (i != current ==> Outline(rect, MidGray) in ops)
  {
    var prev := PaletteOps(colors, current, originX, originY, cellSize, count - 1);
    var last := SwatchOps(colors, current, originX, originY, cellSize, count - 1);
    if i < count - 1 {
      PaletteOpsSwatch(colors, current, originX, originY, cellSize, count - 1, i);
    } else {
      var rect := SwatchRect(originX, originY, cellSize, i);
      assert Grown(rect, 0) == rect;
      assert last[0] == Fill(rect, colors[i]);
    }
    assert forall op :: op in prev || op in last ==> op in prev + last;
  }

  /** White is used only around the selected swatch: every white outline is
      the selected swatch's rectangle or that rectangle grown by one. */
  lemma {:induction false} PaletteOpsWhiteOnlyOnSelection(colors: seq<Color>, current: int, originX: int,
                                                          originY: int, cellSize: int, count: nat, op: DrawOp)
    requires count <= |colors|
    requires op in PaletteOps(colors, current, originX, originY, cellSize, count)
    requires op.Outline? && op.color == White
    ensures 0 <= current < count
    ensures op.rect == SwatchRect(originX, originY, cellSize, current)
            || op.rect == Grown(SwatchRect(originX, originY, cellSize, current), 1)
  {
    var prev := PaletteOps(colors, current, originX, originY, cellSize, count - 1);
    if op in prev {
      PaletteOpsWhiteOnlyOnSelection(colors, current, originX, originY, cellSize, count - 1, op);
    } else {
      assert op in SwatchOps(colors, current, originX, originY, cellSize, count - 1);
    }
  }

  /** The palette: a colour table fixed at construction and the index of the
      selected colour, which only a successful selection changes. */
  class Palette {
    const colors: seq<Color>
    var currentColorIndex: int

    /** The table is the PICO-8 one and the selection is one of its indices. */
    ghost predicate Valid()
      reads this
    {
      colors == Pico8Colors() && 0 <= currentColorIndex < |colors|
    }

    /** The sixteen PICO-8 colours, with colour 0 selected. */
    constructor ()
      ensures Valid() && |colors| == 16 && currentColorIndex == 0
    {
      currentColorIndex := 0;
      colors := Pico8Colors();
    }

    /** The colour at index; opaque black for an index outside the table. */
    function GetColor(index: int): (c: Color)
      ensures 0 <= index < |colors| ==> c == colors[index]
      ensures !(0 <= index < |colors|) ==> c == OpaqueBlack
    {
      if 0 <= index < |colors| then colors[index] else OpaqueBlack
    }

    /** The selected index, which always names a colour of the table. */
    function GetCurrentColorIndex(): (index: int)
      requires Valid()
      reads this
      ensures 0 <= index < 16
      ensures GetColor(index) == Pico8Colors()[index]
    {
      currentColorIndex
    }

    function GetColorCount(): (count: int)
      requires Valid()
      reads this
      ensures count == 16
    {
      |colors|
    }

    /** Selects index when it names a colour; otherwise keeps the selection. */
    method SetCurrentColorIndex(index: int)
      requires Valid()
      modifies this
      ensures Valid()
      ensures currentColorIndex == if 0 <= index < |colors| then index else old(currentColorIndex)
    {
      if 0 <= index < |colors| {
        currentColorIndex := index;
      }
    }

    /** Selects the colour whose swatch lies under the mouse. Reports whether
      the click fell on the 4 x 4 block; a miss leaves the selection alone. */
    method HandleClick(mouseX: int, mouseY: int, paletteX: int, paletteY: int, cellSize: int)
      returns (handled: bool)
      requires Valid() && cellSize != 0
      modifies this
      ensures Valid()
      ensures handled == SwatchAt(mouseX, mouseY, paletteX, paletteY, cellSize, |colors|).Some?
      ensures currentColorIndex == match SwatchAt(mouseX, mouseY, paletteX, paletteY, cellSize, |colors|)
                                   case Some(i) => if 0 <= i then i else old(currentColorIndex)
                                   case None => old(currentColorIndex)
    {
      var relativeX := mouseX - paletteX;
      var relativeY := mouseY - paletteY;
      if relativeX < 0 || relativeY < 0 {
        return false;
      }
      var col := TruncDiv(relativeX, cellSize);
      var row := TruncDiv(relativeY, cellSize);
      if col >= 4 || row >= 4 {
        return false;
      }
      var colorIndex := row * 4 + col;
      if colorIndex < |colors| {
        SetCurrentColorIndex(colorIndex);
        return true;
      }
      return false;
    }

    /** The draw calls of Palette::render: the sixteen swatches in index
      order, each filled and outlined. */
    method Render(x: int, y: int, cellSize: int) returns (ops: seq<DrawOp>)
      requires Valid()
      ensures ops == PaletteOps(colors, currentColorIndex, x, y, cellSize, |colors|)
    {
      ops := [];
      var i := 0;
      while i < |colors|
        invariant 0 <= i <= |colors|
        invariant ops == PaletteOps(colors, currentColorIndex, x, y, cellSize, i)
      {
        var rect := Rect(x + (i % 4) * cellSize, y + (i / 4) * cellSize, cellSize, cellSize);
        ops := ops + [Fill(rect, colors[i])];
        if i == currentColorIndex {
          var border := 0;
          while border < 2
            invariant 0 <= border <= 2
            invariant ops == PaletteOps(colors, currentColorIndex, x, y, cellSize, i)
                             + [Fill(rect, colors[i])]
                             + [Outline(Grown(rect, 0), White), Outline(Grown(rect, 1), White)][..border]
          {
            var borderRect := Rect(rect.x - border, rect.y - border, rect.w + 2 * border, rect.h + 2 * border);
            ops := ops + [Outline(borderRect, White)];
            border := border + 1;
          }
        } else {
          ops := ops + [Outline(rect, MidGray)];
        }
        i := i + 1;
      }
    }
  }
}
