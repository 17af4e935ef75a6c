/** The text renderer of the SSD1306 example. */
module Ssd1306Text {
  import opened Framebuffer

  /** The `int` of the renderer. */
  newtype int32 = v: int | -0x8000_0000 <= v < 0x8000_0000

  const GLYPH_WIDTH := 6
  const GLYPH_HEIGHT := 8

  /** The columns of a character, top row in the lowest bit; anything not in the font is blank. */
  function Glyph(c: char): (g: seq<bv8>)
    ensures |g| == GLYPH_WIDTH
  {
    match c
    case '!' => [0x00, 0x00, 0x5F, 0x00, 0x00, 0x00]
    case 'H' => [0x7F, 0x08, 0x08, 0x08, 0x7F, 0x00]
    case 'W' => [0x7F, 0x20, 0x18, 0x20, 0x7F, 0x00]
    case 'd' => [0x38, 0x44, 0x44, 0x48, 0x7F, 0x00]
    case 'e' => [0x38, 0x54, 0x54, 0x54, 0x18, 0x00]
    case 'l' => [0x00, 0x41, 0x7F, 0x40, 0x00, 0x00]
    case 'o' => [0x38, 0x44, 0x44, 0x44, 0x38, 0x00]
    case 'r' => [0x7C, 0x08, 0x04, 0x04, 0x08, 0x00]
    case _ => [0x00, 0x00, 0x00, 0x00, 0x00, 0x00]
  }

  /** The text drawn with its top left corner at (x, y) covers pixel (px, py). */
  predicate Inked(x: int, y: int, text: string, px: int, py: int) {
    && x <= px && 0 <= py - y < GLYPH_HEIGHT && (px - x) / GLYPH_WIDTH < |text|
    && Bit(Glyph(text[(px - x) / GLYPH_WIDTH])[(px - x) % GLYPH_WIDTH], py - y)
  }

  /** What drawing means, byte by byte. */
  function Painted(frame: Frame, x: int, y: int, text: string): Frame {
    seq(SIZE, i requires 0 <= i < SIZE => frame[i] | Ink(x, y, text, i))
  }

  function Ink(x: int, y: int, text: string, i: nat): bv8
    requires i < SIZE
  {
    Pack(seq(8, k requires 0 <= k < 8 => var p := PixelAt(i, k); Inked(x, y, text, p.0, p.1)))
  }

  /** The closed form: a pixel is set after drawing iff it was set before or the text covers it. */
  lemma PaintedPixel(frame: Frame, x: int, y: int, text: string, px: int, py: int)
    requires OnScreen(px, py)
    ensures Pixel(Painted(frame, x, y, text), px, py) <==> Pixel(frame, px, py) || Inked(x, y, text, px, py)
  {
    hide Inked, Bit, Pack;
    var i, k := Index(px, py), py % 8;
    PixelOfIndex(px, py);
    OrBit(frame[i], Ink(x, y, text, i), k);
  }

  /** A frame that answers to the closed form is the painted one. */
  lemma PaintedUnique(frame: Frame, x: int, y: int, text: string, result: Frame)
    requires forall px, py | OnScreen(px, py) ::
               Pixel(result, px, py) <==> Pixel(frame, px, py) || Inked(x, y, text, px, py)
    ensures result == Painted(frame, x, y, text)
  {
    forall px, py | OnScreen(px, py) ensures Pixel(result, px, py) == Pixel(Painted(frame, x, y, text), px, py) {
      PaintedPixel(frame, x, y, text, px, py);
    }
    FrameExtensional(result, Painted(frame, x, y, text));
  }

  /* ---------- the loops ---------- */

  /** (column, row) comes before (c, r) in the nested loops. */
  predicate Before(column: int, row: int, c: int, r: int) {
    column < c || (column == c && row < r)
  }

  ghost predicate DrawnUpTo(start: Frame, now: Frame, x: int, y: int, c: char, column: int, row: int) {
    forall px, py | OnScreen(px, py) ::
      Pixel(now, px, py) <==> Pixel(start, px, py) || (Inked(x, y, [c], px, py) && Before(px - x, py - y, column, row))
  }

  method DrawChar(frame: array<bv8>, x: int32, y: int32, c: char)
    requires frame.Length == SIZE
    requires x as int + GLYPH_WIDTH - 1 < 0x8000_0000 && y as int + GLYPH_HEIGHT - 1 < 0x8000_0000
    modifies frame
    ensures frame[..] == Painted(old(frame[..]), x as int, y as int, [c])
  {
    hide DrawnUpTo, Painted, Bit, Mask, Glyph, Pixel;
    ghost var start := frame[..];
    var bitmap := Glyph(c);
    NoCellYet(start, x as int, y as int, c);
    for column: int32 := 0 to 6
      invariant DrawnUpTo(start, frame[..], x as int, y as int, c, column as int, 0)
    {
      for row: int32 := 0 to 8
        invariant DrawnUpTo(start, frame[..], x as int, y as int, c, column as int, row as int)
      {
        ghost var before := frame[..];
        if !Bit(bitmap[column as int], row as int) {
          NextCell(start, before, x as int, y as int, c, column as int, row as int, before);
          continue;
        }
        var px := x + column;
        var py := y + row;
        if px < 0 || px >= 128 || py < 0 || py >= 32 {
          NextCell(start, before, x as int, y as int, c, column as int, row as int, before);
          continue;
        }
        var index := (py as int / 8) * WIDTH + px as int;
        frame[index] := frame[index] | Mask(py as int % 8);
        SetPixel(before, px as int, py as int);
        NextCell(start, before, x as int, y as int, c, column as int, row as int, frame[..]);
      }
      NextColumn(start, frame[..], x as int, y as int, c, column as int);
    }
    AllColumns(start, frame[..], x as int, y as int, c);
  }

  lemma NoCellYet(start: Frame, x: int, y: int, c: char)
    ensures DrawnUpTo(start, start, x, y, c, 0, 0)
  {
  }

  /** One turn of the inner loop sets the pixel of its cell, if it is inked and on screen. */
  lemma NextCell(start: Frame, before: Frame, x: int, y: int, c: char, column: int, row: int, now: Frame)
    requires 0 <= column < GLYPH_WIDTH && 0 <= row < GLYPH_HEIGHT
    requires DrawnUpTo(start, before, x, y, c, column, row)
    requires forall px, py | OnScreen(px, py) ::
               Pixel(now, px, py) <==> Pixel(before, px, py)
                                       || ((px, py) == (x + column, y + row) && Bit(Glyph(c)[column], row))
    ensures DrawnUpTo(start, now, x, y, c, column, row + 1)
  {
    hide Pixel, Bit, Glyph;
    forall px, py | OnScreen(px, py)
      ensures Pixel(now, px, py)
              <==> Pixel(start, px, py) || (Inked(x, y, [c], px, py) && Before(px - x, py - y, column, row + 1))
    {
      assert px - x == column ==> (px - x) / GLYPH_WIDTH == 0 && (px - x) % GLYPH_WIDTH == column;
      assert Pixel(before, px, py)
        <==> Pixel(start, px, py) || (Inked(x, y, [c], px, py) && Before(px - x, py - y, column, row));
    }
  }

  lemma NextColumn(start: Frame, now: Frame, x: int, y: int, c: char, column: int)
    requires DrawnUpTo(start, now, x, y, c, column, GLYPH_HEIGHT)
    ensures DrawnUpTo(start, now, x, y, c, column + 1, 0)
  {
    forall px, py | OnScreen(px, py)
      ensures Pixel(now, px, py)
              <==> Pixel(start, px, py) || (Inked(x, y, [c], px, py) && Before(px - x, py - y, column + 1, 0))
    {
      assert Pixel(now, px, py)
        <==> Pixel(start, px, py) || (Inked(x, y, [c], px, py) && Before(px - x, py - y, column, GLYPH_HEIGHT));
    }
  }

  lemma AllColumns(start: Frame, now: Frame, x: int, y: int, c: char)
    requires DrawnUpTo(start, now, x, y, c, GLYPH_WIDTH, 0)
    ensures now == Painted(start, x, y, [c])
  {
    forall px, py | OnScreen(px, py)
      ensures Pixel(now, px, py) <==> Pixel(start, px, py) || Inked(x, y, [c], px, py)
    {
      assert Pixel(now, px, py)
        <==> Pixel(start, px, py) || (Inked(x, y, [c], px, py) && Before(px - x, py - y, GLYPH_WIDTH, 0));
      if Inked(x, y, [c], px, py) { assert (px - x) / GLYPH_WIDTH == 0; }
    }
    PaintedUnique(start, x, y, [c], now);
  }

  method DrawText(frame: array<bv8>, x: int32, y: int32, text: string)
    requires frame.Length == SIZE
    requires x as int + GLYPH_WIDTH * |text| < 0x8000_0000 && y as int + GLYPH_HEIGHT - 1 < 0x8000_0000
    modifies frame
    ensures frame[..] == Painted(old(frame[..]), x as int, y as int, text)
  {
    ghost var start := frame[..];
    var cursor := x;
    PaintNothing(start, x as int, y as int);
    for i := 0 to |text|
      invariant cursor as int == x as int + GLYPH_WIDTH * i
      invariant frame[..] == Painted(start, x as int, y as int, text[..i])
    {
      DrawChar(frame, cursor, y, text[i]);
      PaintConcat(start, x as int, y as int, text[..i], [text[i]]);
      assert text[..i + 1] == text[..i] + [text[i]];
      cursor := cursor + 6;
    }
    assert text[..|text|] == text;
  }

  /* ---------- the algebra of drawing ---------- */

  lemma PaintNothing(frame: Frame, x: int, y: int)
    ensures Painted(frame, x, y, "") == frame
  {
    PaintedUnique(frame, x, y, "", frame);
  }

  lemma ShiftCells(z: int, n: int)
    ensures (z - GLYPH_WIDTH * n) / GLYPH_WIDTH == z / GLYPH_WIDTH - n
    ensures (z - GLYPH_WIDTH * n) % GLYPH_WIDTH == z % GLYPH_WIDTH
  {
  }

  /** Which part of a longer text covers a pixel. */
  lemma InkedConcat(x: int, y: int, s: string, t: string, px: int, py: int)
    ensures Inked(x, y, s + t, px, py) <==> Inked(x, y, s, px, py) || Inked(x + GLYPH_WIDTH * |s|, y, t, px, py)
  {
    hide Bit, Glyph;
    ShiftCells(px - x, |s|);
    assert px - (x + GLYPH_WIDTH * |s|) == px - x - GLYPH_WIDTH * |s|;
  }

  /** Drawing s + t is drawing s and then t six pixels per character further right. */
  lemma PaintConcat(frame: Frame, x: int, y: int, s: string, t: string)
    ensures Painted(Painted(frame, x, y, s), x + GLYPH_WIDTH * |s|, y, t) == Painted(frame, x, y, s + t)
  {
    hide Painted, Pixel, Inked;
    var first := Painted(frame, x, y, s);
    var result := Painted(first, x + GLYPH_WIDTH * |s|, y, t);
    forall px, py | OnScreen(px, py)
      ensures Pixel(result, px, py) <==> Pixel(frame, px, py) || Inked(x, y, s + t, px, py)
    {
      PaintedPixel(first, x + GLYPH_WIDTH * |s|, y, t, px, py);
      PaintedPixel(frame, x, y, s, px, py);
      InkedConcat(x, y, s, t, px, py);
    }
    PaintedUnique(frame, x, y, s + t, result);
  }

  /** Drawing twice is drawing once. */
  lemma PaintIdempotent(frame: Frame, x: int, y: int, text: string)
    ensures Painted(Painted(frame, x, y, text), x, y, text) == Painted(frame, x, y, text)
  {
    var once := Painted(frame, x, y, text);
    forall px, py | OnScreen(px, py) ensures Pixel(once, px, py) <==> Pixel(once, px, py) || Inked(x, y, text, px, py) {
      PaintedPixel(frame, x, y, text, px, py);
    }
    PaintedUnique(once, x, y, text, once);
  }

  /** The order of two drawings does not matter, overlapping or not. */
  lemma PaintCommutes(frame: Frame, x1: int, y1: int, s: string, x2: int, y2: int, t: string)
    ensures Painted(Painted(frame, x1, y1, s), x2, y2, t) == Painted(Painted(frame, x2, y2, t), x1, y1, s)
  {
    var a := Painted(Painted(frame, x1, y1, s), x2, y2, t);
    var b := Painted(Painted(frame, x2, y2, t), x1, y1, s);
    forall px, py | OnScreen(px, py) ensures Pixel(a, px, py) == Pixel(b, px, py) {
      PaintedPixel(frame, x1, y1, s, px, py);
      PaintedPixel(frame, x2, y2, t, px, py);
      PaintedPixel(Painted(frame, x1, y1, s), x2, y2, t, px, py);
      PaintedPixel(Painted(frame, x2, y2, t), x1, y1, s, px, py);
    }
    FrameExtensional(a, b);
  }

  /** Drawing only ever adds pixels, and more of them on a frame that had more. */
  lemma PaintMonotone(a: Frame, b: Frame, x: int, y: int, text: string, px: int, py: int)
    requires OnScreen(px, py)
    requires Pixel(a, px, py) ==> Pixel(b, px, py)
    ensures Pixel(a, px, py) ==> Pixel(Painted(a, x, y, text), px, py)
    ensures Pixel(Painted(a, x, y, text), px, py) ==> Pixel(Painted(b, x, y, text), px, py)
  {
    PaintedPixel(a, x, y, text, px, py);
    PaintedPixel(b, x, y, text, px, py);
  }

  /** The cell of a character at (x, y) has no pixel on the screen. */
  predicate OffScreen(x: int, y: int) {
    x + GLYPH_WIDTH <= 0 || WIDTH <= x || y + GLYPH_HEIGHT <= 0 || HEIGHT <= y
  }

  /** Characters wholly off the screen, wherever they stand in the text, draw nothing. */
  lemma OffScreenDrawsNothing(frame: Frame, x: int, y: int, text: string)
    requires forall i | 0 <= i < |text| :: OffScreen(x + GLYPH_WIDTH * i, y)
    ensures Painted(frame, x, y, text) == frame
  {
    forall px, py | OnScreen(px, py)
      ensures Pixel(frame, px, py) <==> Pixel(frame, px, py) || Inked(x, y, text, px, py)
    {
      if x <= px && (px - x) / GLYPH_WIDTH < |text| {
        assert OffScreen(x + GLYPH_WIDTH * ((px - x) / GLYPH_WIDTH), y);
      }
    }
    PaintedUnique(frame, x, y, text, frame);
  }
}
