/** What the characters of the example look like, drawn out. */
module Ssd1306Pictures {
  import opened Framebuffer
  import opened Ssd1306Text
  import opened Ssd1306Panel
  import opened Ssd1306Example

  type Picture = p: seq<string> | |p| == 8 && forall row | 0 <= row < 8 :: |p[row]| == 6
    witness ["......", "......", "......", "......", "......", "......", "......", "......"]

  /** Rows from top to bottom, '#' being lit. */
  function PictureOf(c: char): Picture {
    match c
    case '!' => [
      "..#...",
      "..#...",
      "..#...",
      "..#...",
      "..#...",
      "......",
      "..#...",
      "......"
    ]
    case 'H' => [
      "#...#.",
      "#...#.",
      "#...#.",
      "#####.",
      "#...#.",
      "#...#.",
      "#...#.",
      "......"
    ]
    case 'W' => [
      "#...#.",
      "#...#.",
      "#...#.",
      "#.#.#.",
      "#.#.#.",
      "##.##.",
      "#...#.",
      "......"
    ]
    case 'd' => [
      "....#.",
      "....#.",
      ".##.#.",
      "#..##.",
      "#...#.",
      "#...#.",
      ".####.",
      "......"
    ]
    case 'e' => [
      "......",
      "......",
      ".###..",
      "#...#.",
      "#####.",
      "#.....",
      ".###..",
      "......"
    ]
    case 'l' => [
      ".##...",
      "..#...",
      "..#...",
      "..#...",
      "..#...",
      "..#...",
      ".###..",
      "......"
    ]
    case 'o' => [
      "......",
      "......",
      ".###..",
      "#...#.",
      "#...#.",
      "#...#.",
      ".###..",
      "......"
    ]
    case 'r' => [
      "......",
      "......",
      "#.##..",
      "##..#.",
      "#.....",
      "#.....",
      "#.....",
      "......"
    ]
    case _ => [
      "......",
      "......",
      "......",
      "......",
      "......",
      "......",
      "......",
      "......"
    ]
  }

  /** A column of a glyph is its eight pixels, the lowest bit on top. */
  lemma ColumnBits(b: bv8)
    ensures Bit(b, 0) <==> b & 0x01 != 0
    ensures Bit(b, 1) <==> b & 0x02 != 0
    ensures Bit(b, 2) <==> b & 0x04 != 0
    ensures Bit(b, 3) <==> b & 0x08 != 0
    ensures Bit(b, 4) <==> b & 0x10 != 0
    ensures Bit(b, 5) <==> b & 0x20 != 0
    ensures Bit(b, 6) <==> b & 0x40 != 0
    ensures Bit(b, 7) <==> b & 0x80 != 0
  {
  }

  ghost predicate Agree(c: char, column: nat)
    requires column < 6
  {
    forall row | 0 <= row < 8 :: Bit(Glyph(c)[column], row) <==> PictureOf(c)[row][column] == '#'
  }

  /** The eight pixels of a column, given as text. */
  predicate Spells(b: bv8, text: string)
    requires |text| == 8
  {
    && (text[0] == '#' <==> b & 0x01 != 0) && (text[1] == '#' <==> b & 0x02 != 0)
    && (text[2] == '#' <==> b & 0x04 != 0) && (text[3] == '#' <==> b & 0x08 != 0)
    && (text[4] == '#' <==> b & 0x10 != 0) && (text[5] == '#' <==> b & 0x20 != 0)
    && (text[6] == '#' <==> b & 0x40 != 0) && (text[7] == '#' <==> b & 0x80 != 0)
  }

  function Column(p: Picture, column: nat): string
    requires column < 6
  {
    [p[0][column], p[1][column], p[2][column], p[3][column], p[4][column], p[5][column], p[6][column], p[7][column]]
  }

  lemma SpellsAgrees(c: char, column: nat)
    requires column < 6 && Spells(Glyph(c)[column], Column(PictureOf(c), column))
    ensures Agree(c, column)
  {
    hide PictureOf, Glyph, Bit;
    ColumnBits(Glyph(c)[column]);
    var text := Column(PictureOf(c), column);
    forall row | 0 <= row < 8 ensures text[row] == PictureOf(c)[row][column] {
    }
  }

  lemma PictureBang()
    ensures forall column | 0 <= column < 6 :: Spells(Glyph('!')[column], Column(PictureOf('!'), column))
  {
    assert Column(PictureOf('!'), 0) == "........" && Spells(0x00, "........");
    assert Column(PictureOf('!'), 1) == "........" && Spells(0x00, "........");
    assert Column(PictureOf('!'), 2) == "#####.#." && Spells(0x5F, "#####.#.");
    assert Column(PictureOf('!'), 3) == "........" && Spells(0x00, "........");
    assert Column(PictureOf('!'), 4) == "........" && Spells(0x00, "........");
    assert Column(PictureOf('!'), 5) == "........" && Spells(0x00, "........");
  }

  lemma PictureCapitalH()
    ensures forall column | 0 <= column < 6 :: Spells(Glyph('H')[column], Column(PictureOf('H'), column))
  {
    assert Column(PictureOf('H'), 0) == "#######." && Spells(0x7F, "#######.");
    assert Column(PictureOf('H'), 1) == "...#...." && Spells(0x08, "...#....");
    assert Column(PictureOf('H'), 2) == "...#...." && Spells(0x08, "...#....");
    assert Column(PictureOf('H'), 3) == "...#...." && Spells(0x08, "...#....");
    assert Column(PictureOf('H'), 4) == "#######." && Spells(0x7F, "#######.");
    assert Column(PictureOf('H'), 5) == "........" && Spells(0x00, "........");
  }

  lemma PictureCapitalW()
    ensures forall column | 0 <= column < 6 :: Spells(Glyph('W')[column], Column(PictureOf('W'), column))
  {
    assert Column(PictureOf('W'), 0) == "#######." && Spells(0x7F, "#######.");
    assert Column(PictureOf('W'), 1) == ".....#.." && Spells(0x20, ".....#..");
    assert Column(PictureOf('W'), 2) == "...##..." && Spells(0x18, "...##...");
    assert Column(PictureOf('W'), 3) == ".....#.." && Spells(0x20, ".....#..");
    assert Column(PictureOf('W'), 4) == "#######." && Spells(0x7F, "#######.");
    assert Column(PictureOf('W'), 5) == "........" && Spells(0x00, "........");
  }

  lemma PictureSmallD()
    ensures forall column | 0 <= column < 6 :: Spells(Glyph('d')[column], Column(PictureOf('d'), column))
  {
    assert Column(PictureOf('d'), 0) == "...###.." && Spells(0x38, "...###..");
    assert Column(PictureOf('d'), 1) == "..#...#." && Spells(0x44, "..#...#.");
    assert Column(PictureOf('d'), 2) == "..#...#." && Spells(0x44, "..#...#.");
    assert Column(PictureOf('d'), 3) == "...#..#." && Spells(0x48, "...#..#.");
    assert Column(PictureOf('d'), 4) == "#######." && Spells(0x7F, "#######.");
    assert Column(PictureOf('d'), 5) == "........" && Spells(0x00, "........");
  }

  lemma PictureSmallE()
    ensures forall column | 0 <= column < 6 :: Spells(Glyph('e')[column], Column(PictureOf('e'), column))
  {
    assert Column(PictureOf('e'), 0) == "...###.." && Spells(0x38, "...###..");
    assert Column(PictureOf('e'), 1) == "..#.#.#." && Spells(0x54, "..#.#.#.");
    assert Column(PictureOf('e'), 2) == "..#.#.#." && Spells(0x54, "..#.#.#.");
    assert Column(PictureOf('e'), 3) == "..#.#.#." && Spells(0x54, "..#.#.#.");
    assert Column(PictureOf('e'), 4) == "...##..." && Spells(0x18, "...##...");
    assert Column(PictureOf('e'), 5) == "........" && Spells(0x00, "........");
  }

  lemma PictureSmallL()
    ensures forall column | 0 <= column < 6 :: Spells(Glyph('l')[column], Column(PictureOf('l'), column))
  {
    assert Column(PictureOf('l'), 0) == "........" && Spells(0x00, "........");
    assert Column(PictureOf('l'), 1) == "#.....#." && Spells(0x41, "#.....#.");
    assert Column(PictureOf('l'), 2) == "#######." && Spells(0x7F, "#######.");
    assert Column(PictureOf('l'), 3) == "......#." && Spells(0x40, "......#.");
    assert Column(PictureOf('l'), 4) == "........" && Spells(0x00, "........");
    assert Column(PictureOf('l'), 5) == "........" && Spells(0x00, "........");
  }

  lemma PictureSmallO()
    ensures forall column | 0 <= column < 6 :: Spells(Glyph('o')[column], Column(PictureOf('o'), column))
  {
    assert Column(PictureOf('o'), 0) == "...###.." && Spells(0x38, "...###..");
    assert Column(PictureOf('o'), 1) == "..#...#." && Spells(0x44, "..#...#.");
    assert Column(PictureOf('o'), 2) == "..#...#." && Spells(0x44, "..#...#.");
    assert Column(PictureOf('o'), 3) == "..#...#." && Spells(0x44, "..#...#.");
    assert Column(PictureOf('o'), 4) == "...###.." && Spells(0x38, "...###..");
    assert Column(PictureOf('o'), 5) == "........" && Spells(0x00, "........");
  }

  lemma PictureSmallR()
    ensures forall column | 0 <= column < 6 :: Spells(Glyph('r')[column], Column(PictureOf('r'), column))
  {
    assert Column(PictureOf('r'), 0) == "..#####." && Spells(0x7C, "..#####.");
    assert Column(PictureOf('r'), 1) == "...#...." && Spells(0x08, "...#....");
    assert Column(PictureOf('r'), 2) == "..#....." && Spells(0x04, "..#.....");
    assert Column(PictureOf('r'), 3) == "..#....." && Spells(0x04, "..#.....");
    assert Column(PictureOf('r'), 4) == "...#...." && Spells(0x08, "...#....");
    assert Column(PictureOf('r'), 5) == "........" && Spells(0x00, "........");
  }

  /** A character outside the font is blank. */
  lemma PictureBlank(c: char, column: nat)
    requires column < 6 && c !in "!HWdelor"
    ensures Spells(Glyph(c)[column], Column(PictureOf(c), column))
  {
    assert Glyph(c)[column] == 0x00;
    assert Column(PictureOf(c), column) == "........";
  }

  /** The font is its pictures. */
  lemma GlyphIsPicture(c: char, column: nat)
    requires column < 6
    ensures Agree(c, column)
  {
    hide PictureOf, Glyph, Spells, Agree, Column;
    if c == '!' { PictureBang(); }
    else if c == 'H' { PictureCapitalH(); }
    else if c == 'W' { PictureCapitalW(); }
    else if c == 'd' { PictureSmallD(); }
    else if c == 'e' { PictureSmallE(); }
    else if c == 'l' { PictureSmallL(); }
    else if c == 'o' { PictureSmallO(); }
    else if c == 'r' { PictureSmallR(); }
    else { PictureBlank(c, column); }
    SpellsAgrees(c, column);
  }

  /** A text covers the pixels of the pictures of its characters, six columns apart. */
  lemma InkedIsPicture(x: int, y: int, text: string, px: int, py: int)
    ensures Inked(x, y, text, px, py)
            <==> && x <= px && 0 <= py - y < 8 && (px - x) / 6 < |text|
                 && PictureOf(text[(px - x) / 6])[py - y][(px - x) % 6] == '#'
  {
    hide PictureOf, Glyph, Bit;
    if x <= px && 0 <= py - y < 8 && (px - x) / 6 < |text| {
      GlyphIsPicture(text[(px - x) / 6], (px - x) % 6);
    }
  }

  /** What drawing a text does to a pixel, in terms of the pictures. */
  lemma DrawnIsPicture(frame: Frame, x: int, y: int, text: string, px: int, py: int)
    requires OnScreen(px, py)
    ensures Pixel(Painted(frame, x, y, text), px, py)
            <==> || Pixel(frame, px, py)
                 || (&& x <= px && 0 <= py - y < 8 && (px - x) / 6 < |text|
                     && PictureOf(text[(px - x) / 6])[py - y][(px - x) % 6] == '#')
  {
    hide PictureOf, Pixel, Painted, Inked;
    PaintedPixel(frame, x, y, text, px, py);
    InkedIsPicture(x, y, text, px, py);
  }

  /** The text of the example. */
  const GREETING := "Hello World!"

  /** After a session a ready panel that obeys the pointer commands, or has its pointer at the origin, shows the
      pictures of the characters side by side and nothing else. */
  lemma SessionShowsPictures(p: Panel, x: int, y: int, text: string, px: int, py: int)
    requires p.Ready() && (p.honours || p.Address() == 0) && OnScreen(px, py)
    ensures Lit(Feed(p, Session(x, y, text)), px, py)
            <==> && x <= px && 0 <= py - y < 8 && (px - x) / 6 < |text|
                 && PictureOf(text[(px - x) / 6])[py - y][(px - x) % 6] == '#'
  {
    hide PictureOf, Feed, Session, Lit, Inked;
    SessionShowsText(p, x, y, text, px, py);
    InkedIsPicture(x, y, text, px, py);
  }

  /** The example itself: the greeting in the top left corner of an otherwise dark screen. */
  lemma GreetingIsShown(p: Panel, px: int, py: int)
    requires p.Ready() && (p.honours || p.Address() == 0) && OnScreen(px, py)
    ensures Lit(Feed(p, Session(0, 0, GREETING)), px, py)
            <==> py < 8 && px < 72 && PictureOf(GREETING[px / 6])[py][px % 6] == '#'
  {
    hide PictureOf, Feed, Session, Lit;
    SessionShowsPictures(p, 0, 0, GREETING, px, py);
    assert |GREETING| == 12;
  }
}
