// The value types of include/gfx.h: the GFX_COLOR union, the COLOR and
// SAME_COLOR macros, the context flag bits and the font record.

module GfxHeader {

  /** An 8-bit unsigned bitfield. */
  type Channel = n: int | 0 <= n < 256

  /** A 32-bit unsigned word, the `raw` view of a colour. */
  type Word = n: int | 0 <= n < 0x1_0000_0000

  /** GFX_COLOR: four 8-bit fields packed b, g, r, a from the low byte up. */
  datatype Color = Color(b: Channel, g: Channel, r: Channel, a: Channel)

  /** The `raw` member of the union: the four bitfields read as one word. */
  function Raw(c: Color): (n: Word)
    ensures n % 256 == c.b && n / 0x100_0000 == c.a
  {
    c.b + 0x100 * c.g + 0x1_0000 * c.r + 0x100_0000 * c.a
  }

  /** Writing `raw` and reading the four bitfields back. */
  function FromRaw(n: Word): (c: Color)
    ensures Raw(c) == n
  {
    var g := n / 0x100;
    var r := g / 0x100;
    var a := r / 0x100;
    assert n == 0x100 * g + n % 0x100 && g == 0x100 * r + g % 0x100 && r == 0x100 * a + r % 0x100;
    Color(n % 0x100, g % 0x100, r % 0x100, a)
  }

  /** Every colour is the bitfield view of exactly one word. */
  lemma {:induction false} RawRoundTrip(c: Color)
    ensures FromRaw(Raw(c)) == c
  {
    var n := Raw(c);
    assert n / 0x100 == c.g + 0x100 * c.r + 0x1_0000 * c.a;
    assert n / 0x1_0000 == c.r + 0x100 * c.a;
  }

  /** A C int stored into an unsigned 8-bit bitfield keeps its low 8 bits. */
  function Truncate8(v: int): (n: Channel)
    ensures (n - v) % 256 == 0
  {
    v % 256
  }

  /** COLOR(red, grn, blu): the three channels in their own fields, alpha 0xff. */
  function Rgb(red: int, grn: int, blu: int): (c: Color)
    ensures c.a == 0xff
    ensures (c.r - red) % 256 == 0 && (c.g - grn) % 256 == 0 && (c.b - blu) % 256 == 0
  {
    Color(Truncate8(blu), Truncate8(grn), Truncate8(red), 0xff)
  }

  /** SAME_COLOR(c1, c2): the red, green and blue fields agree; alpha is not looked at. */
  predicate Same(c1: Color, c2: Color)
  {
    c1.r == c2.r && c1.g == c2.g && c1.b == c2.b
  }

  /** SAME_COLOR compares the two raw words in their low 24 bits. */
  lemma SameRaw(c1: Color, c2: Color)
    ensures Same(c1, c2) <==> Raw(c1) % 0x100_0000 == Raw(c2) % 0x100_0000
  {
    RawLow(c1);
    RawLow(c2);
  }

  /** The low 24 bits of the raw word hold blue, green and red, and determine them. */
  lemma {:induction false} RawLow(c: Color)
    ensures Raw(c) % 0x100_0000 == c.b + 0x100 * c.g + 0x1_0000 * c.r
    ensures (Raw(c) % 0x100_0000) % 0x100 == c.b
    ensures (Raw(c) % 0x100_0000) / 0x100 % 0x100 == c.g
    ensures (Raw(c) % 0x100_0000) / 0x1_0000 == c.r
  {
    var low := c.b + 0x100 * c.g + 0x1_0000 * c.r;
    assert 0 <= low < 0x100_0000;
    assert Raw(c) == low + 0x100_0000 * c.a;
    assert low / 0x100 == c.g + 0x100 * c.r;
  }

  /** Colours that differ only in alpha are the same colour. */
  lemma SameIgnoresAlpha(c: Color, alpha: Channel)
    ensures Same(c, c.(a := alpha))
    ensures c.(a := alpha) != c <==> alpha != c.a
  {
  }

  /** SAME_COLOR is an equivalence relation. */
  lemma SameIsEquivalence(c1: Color, c2: Color, c3: Color)
    ensures Same(c1, c1)
    ensures Same(c1, c2) ==> Same(c2, c1)
    ensures Same(c1, c2) && Same(c2, c3) ==> Same(c1, c3)
  {
  }

  /** Two COLOR(...) values are the same exactly when their channels agree modulo 256,
      and for channel-range arguments exactly when the arguments are equal. */
  lemma {:induction false} SameRgb(r1: int, g1: int, b1: int, r2: int, g2: int, b2: int)
    ensures Same(Rgb(r1, g1, b1), Rgb(r2, g2, b2)) <==>
              (r1 - r2) % 256 == 0 && (g1 - g2) % 256 == 0 && (b1 - b2) % 256 == 0
    ensures 0 <= r1 < 256 && 0 <= g1 < 256 && 0 <= b1 < 256 &&
            0 <= r2 < 256 && 0 <= g2 < 256 && 0 <= b2 < 256 ==>
              (Same(Rgb(r1, g1, b1), Rgb(r2, g2, b2)) <==> r1 == r2 && g1 == g2 && b1 == b2)
    ensures Rgb(r1, g1, b1) == Rgb(r2, g2, b2) <==> Same(Rgb(r1, g1, b1), Rgb(r2, g2, b2))
  {
    ModEqual(r1, r2);
    ModEqual(g1, g2);
    ModEqual(b1, b2);
  }

  lemma ModEqual(u: int, v: int)
    ensures u % 256 == v % 256 <==> (u - v) % 256 == 0
  {
    var q, p := u / 256, v / 256;
    assert u == 256 * q + u % 256;
    assert v == 256 * p + v % 256;
    assert u - v == 256 * (q - p) + (u % 256 - v % 256);
    if (u - v) % 256 == 0 {
      var k := (u - v) / 256;
      assert u % 256 - v % 256 == 256 * (k - q + p);
    }
  }

  // Context flag bits.
  const FONT_LARGE: bv32 := 1
  const FONT_SMALL: bv32 := 2
  const TEXT_WRAP: bv32 := 4
  const DISPLAY_INVERT: bv32 := 8
  const FONT_TINY: bv32 := 0x10

  /** The five flags are distinct single bits. */
  lemma FlagsAreDistinctBits()
    ensures FONT_LARGE & FONT_SMALL == 0 && FONT_LARGE & TEXT_WRAP == 0
    ensures FONT_LARGE & DISPLAY_INVERT == 0 && FONT_LARGE & FONT_TINY == 0
    ensures FONT_SMALL & TEXT_WRAP == 0 && FONT_SMALL & DISPLAY_INVERT == 0
    ensures FONT_SMALL & FONT_TINY == 0 && TEXT_WRAP & DISPLAY_INVERT == 0
    ensures TEXT_WRAP & FONT_TINY == 0 && DISPLAY_INVERT & FONT_TINY == 0
    ensures FONT_LARGE & (FONT_LARGE - 1) == 0 && FONT_SMALL & (FONT_SMALL - 1) == 0
    ensures TEXT_WRAP & (TEXT_WRAP - 1) == 0 && DISPLAY_INVERT & (DISPLAY_INVERT - 1) == 0
    ensures FONT_TINY & (FONT_TINY - 1) == 0
  {
  }

  /** `flags |= GFX_DISPLAY_INVERT` when m, `flags &= ~GFX_DISPLAY_INVERT` otherwise. */
  function SetInvert(flags: bv32, m: bool): (r: bv32)
    ensures (r & DISPLAY_INVERT != 0) == m
    ensures r & !DISPLAY_INVERT == flags & !DISPLAY_INVERT
  {
    if m then flags | DISPLAY_INVERT else flags & !DISPLAY_INVERT
  }

  /** Setting and then clearing the mirror bit restores a flag word that had it clear. */
  lemma SetInvertRoundTrip(flags: bv32, m: bool)
    ensures SetInvert(SetInvert(flags, m), flags & DISPLAY_INVERT != 0) == flags
    ensures SetInvert(SetInvert(flags, m), m) == SetInvert(flags, m)
  {
  }

  /** struct gfx_font: glyph bytes, glyph count, bytes per glyph, row/column flag,
      advance width, line height and baseline. */
  datatype Font = Font(raw: seq<bv8>, chars: int, size: int, byrow: Channel,
                       width: Channel, height: Channel, baseline: Channel)

  /** The two int16_t fields are in range, and the glyph table holds `size` bytes
      for each of the `chars` characters of the font. */
  predicate ValidFont(f: Font)
  {
    -0x8000 <= f.chars < 0x8000 && -0x8000 <= f.size < 0x8000 &&
    (f.chars <= 0 || f.size <= 0 || f.chars * f.size <= |f.raw|)
  }
}
