/** Shared vocabulary of the editor: SDL-style colours and rectangles, the draw
    calls the components issue (recorded as values instead of being sent to a
    renderer), and C++ integer division. */
module Draw {

  /** An 8-bit colour channel (SDL's Uint8). */
  type Byte = b: int | 0 <= b < 256

  /** An RGBA colour (SDL_Color). */
  datatype Color = Color(r: Byte, g: Byte, b: Byte, a: Byte)

  const OpaqueBlack := Color(0, 0, 0, 255)
  const White := Color(255, 255, 255, 255)
  const MidGray := Color(128, 128, 128, 255)

  /** An axis-aligned rectangle (SDL_Rect): top-left corner, width, height. */
  datatype Rect = Rect(x: int, y: int, w: int, h: int)

  /** One draw call: SDL_SetRenderDrawColor followed by SDL_RenderFillRect
      (Fill) or by SDL_RenderDrawRect (Outline). */
  datatype DrawOp = Fill(rect: Rect, color: Color) | Outline(rect: Rect, color: Color)

  datatype Option<T> = None | Some(value: T)

  /** The point (px, py) lies inside r (right and bottom edges excluded). */
  predicate Inside(px: int, py: int, r: Rect) {
    r.x <= px < r.x + r.w && r.y <= py < r.y + r.h
  }

  function Abs(a: int): nat {
    if a < 0 then -a else a
  }

  /** Integer division as C++ computes it: the quotient of the magnitudes,
      negated when the operands' signs differ (truncation toward zero). */
  function TruncDiv(a: int, b: int): int
    requires b != 0
  {
    var m := Abs(a) / Abs(b);
    if (a < 0) == (b < 0) then m else -m
  }

  /** The defining property of C++ division: q * b never overshoots a in
      magnitude, falls short of it by less than |b|, and lies on the same
      side of zero as a. */
  lemma TruncDivBounds(a: int, b: int)
    requires b != 0
    ensures var q := TruncDiv(a, b);
            && Abs(q * b) <= Abs(a) < Abs(q * b) + Abs(b)
            && (q * b == 0 || (q * b < 0 <==> a < 0))
  {
    var m := Abs(a) / Abs(b);
    QuotientBounds(Abs(a), Abs(b));
    if (a < 0) == (b < 0) {
      AbsMul(m, b);
    } else {
      AbsMul(-m, b);
    }
  }

  lemma AbsMul(a: int, b: int)
    ensures Abs(a * b) == Abs(a) * Abs(b)
  {
    if a < 0 && b < 0 {
      assert a * b == (-a) * (-b);
    } else if a < 0 {
      assert -(a * b) == (-a) * b;
    } else if b < 0 {
      assert -(a * b) == a * (-b);
    }
  }

  lemma QuotientBounds(a: nat, b: nat)
    requires b > 0
    ensures (a / b) * b <= a < (a / b) * b + b
    ensures a / b >= 0
  {
  }

  /** On a non-negative dividend and a positive divisor C++ division agrees
      with Dafny's. */
  lemma TruncDivNonNegative(a: int, b: int)
    requires a >= 0 && b > 0
    ensures TruncDiv(a, b) == a / b >= 0
  {
    QuotientBounds(a, b);
  }

  /** a / c == q exactly when a lies in the c-wide band that starts at q * c. */
  lemma DivBand(a: int, c: int, q: int)
    requires c > 0
    ensures a / c == q <==> q * c <= a < q * c + c
  {
    var d := a / c;
    assert d * c <= a < d * c + c;
    if q * c <= a < q * c + c {
      var k := q - d;
      assert k * c == q * c - d * c;
      assert -c < k * c < c;
      SmallMultiple(k, c);
    }
  }

  lemma SmallMultiple(k: int, c: int)
    requires c > 0 && -c < k * c < c
    ensures k == 0
  {
    MultipleAtLeast(k, c);
  }

  lemma MultipleAtLeast(k: int, c: int)
    requires c > 0
    ensures k >= 1 ==> k * c >= c
    ensures k <= -1 ==> k * c <= -c
  {
  }
}
