/** The page-packed framebuffer of a 128x32 SSD1306 panel: one byte is eight pixels of one column. */
module Framebuffer {

  const WIDTH := 128
  const HEIGHT := 32
  const PAGES := HEIGHT / 8
  const SIZE := WIDTH * PAGES

  type Frame = s: seq<bv8> | |s| == SIZE witness seq(SIZE, _ => 0)

  /** `1u << k` */
  function Mask(k: nat): bv8
    requires k < 8
  {
    if k == 0 then 0x01 else if k == 1 then 0x02 else if k == 2 then 0x04 else if k == 3 then 0x08
    else if k == 4 then 0x10 else if k == 5 then 0x20 else if k == 6 then 0x40 else 0x80
  }

  /** Two to the k: bit 0 is the lowest. */
  lemma {:induction false} MaskIsPower(k: nat)
    requires k < 8
    ensures Mask(k) == 1 << k
    ensures Mask(k) as int == if k == 0 then 1 else 2 * Mask(k - 1) as int
  {
    assert k == 0 || k == 1 || k == 2 || k == 3 || k == 4 || k == 5 || k == 6 || k == 7;
  }

  predicate Bit(b: bv8, k: nat)
    requires k < 8
  {
    b & Mask(k) != 0
  }

  lemma OrBit(a: bv8, b: bv8, k: nat)
    requires k < 8
    ensures Bit(a | b, k) <==> Bit(a, k) || Bit(b, k)
  {
  }

  lemma MaskBit(j: nat, k: nat)
    requires j < 8 && k < 8
    ensures Bit(Mask(j), k) <==> j == k
  {
  }

  /** A byte is its eight bits. */
  lemma ByteExtensional(a: bv8, b: bv8)
    requires forall k: nat | k < 8 :: Bit(a, k) == Bit(b, k)
    ensures a == b
  {
    assert Bit(a, 0) == Bit(b, 0) && Bit(a, 1) == Bit(b, 1) && Bit(a, 2) == Bit(b, 2) && Bit(a, 3) == Bit(b, 3);
    assert Bit(a, 4) == Bit(b, 4) && Bit(a, 5) == Bit(b, 5) && Bit(a, 6) == Bit(b, 6) && Bit(a, 7) == Bit(b, 7);
  }

  /** The byte whose bits are given. */
  function Pack(bits: seq<bool>): (b: bv8)
    requires |bits| == 8
    ensures forall k: nat | k < 8 :: Bit(b, k) == bits[k]
  {
    (if bits[0] then 0x01 else 0) | (if bits[1] then 0x02 else 0)
    | (if bits[2] then 0x04 else 0) | (if bits[3] then 0x08 else 0)
    | (if bits[4] then 0x10 else 0) | (if bits[5] then 0x20 else 0)
    | (if bits[6] then 0x40 else 0) | (if bits[7] then 0x80 else 0)
  }

  predicate OnScreen(px: int, py: int) {
    0 <= px < WIDTH && 0 <= py < HEIGHT
  }

  function Index(px: int, py: int): (i: nat)
    requires OnScreen(px, py)
    ensures i < SIZE
  {
    (py / 8) * WIDTH + px
  }

  predicate Pixel(frame: Frame, px: int, py: int)
    requires OnScreen(px, py)
  {
    Bit(frame[Index(px, py)], py % 8)
  }

  /** The pixel kept in bit `k` of byte `i`. */
  function PixelAt(i: nat, k: nat): (p: (int, int))
    requires i < SIZE && k < 8
    ensures OnScreen(p.0, p.1)
  {
    (i % WIDTH, (i / WIDTH) * 8 + k)
  }

  /** Pixels and framebuffer bits are in one-to-one correspondence. */
  lemma AddressingIsBijective()
    ensures forall px, py | OnScreen(px, py) :: PixelAt(Index(px, py), py % 8) == (px, py)
    ensures forall i: nat, k: nat | i < SIZE && k < 8 ::
              var p := PixelAt(i, k); Index(p.0, p.1) == i && p.1 % 8 == k
  {
    forall px, py | OnScreen(px, py) ensures PixelAt(Index(px, py), py % 8) == (px, py) {
      PixelOfIndex(px, py);
    }
    forall i: nat, k: nat | i < SIZE && k < 8
      ensures var p := PixelAt(i, k); Index(p.0, p.1) == i && p.1 % 8 == k
    {
      IndexOfPixel(i, k);
    }
  }

  lemma PixelOfIndex(px: int, py: int)
    requires OnScreen(px, py)
    ensures PixelAt(Index(px, py), py % 8) == (px, py)
  {
    var page := py / 8;
    assert (page * WIDTH + px) / WIDTH == page;
  }

  lemma IndexOfPixel(i: nat, k: nat)
    requires i < SIZE && k < 8
    ensures var p := PixelAt(i, k); Index(p.0, p.1) == i && p.1 % 8 == k
  {
    var page := i / WIDTH;
    assert (page * 8 + k) / 8 == page;
  }

  /** Two frames that show the same are the same. */
  lemma FrameExtensional(a: Frame, b: Frame)
    requires forall px, py | OnScreen(px, py) :: Pixel(a, px, py) == Pixel(b, px, py)
    ensures a == b
  {
    forall i: nat | i < SIZE ensures a[i] == b[i] {
      forall k: nat | k < 8 ensures Bit(a[i], k) == Bit(b[i], k) {
        IndexOfPixel(i, k);
        var p := PixelAt(i, k);
        assert Pixel(a, p.0, p.1) == Pixel(b, p.0, p.1);
      }
      ByteExtensional(a[i], b[i]);
    }
  }

  /** `framebuffer[index] |= 1u << (py % 8)` sets that pixel and touches no other. */
  lemma SetPixel(frame: Frame, px: int, py: int)
    requires OnScreen(px, py)
    ensures var i := Index(px, py);
            forall qx, qy | OnScreen(qx, qy) ::
              Pixel(frame[i := frame[i] | Mask(py % 8)], qx, qy) <==> Pixel(frame, qx, qy) || (qx, qy) == (px, py)
  {
    var i := Index(px, py);
    forall qx, qy | OnScreen(qx, qy)
      ensures Pixel(frame[i := frame[i] | Mask(py % 8)], qx, qy) <==> Pixel(frame, qx, qy) || (qx, qy) == (px, py)
    {
      if Index(qx, qy) == i {
        OrBit(frame[i], Mask(py % 8), qy % 8);
        MaskBit(py % 8, qy % 8);
      }
    }
  }
}
