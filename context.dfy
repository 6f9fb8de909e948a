// The graphics context GFX_CTX of lib/src/gfx.c: the display size, the
// drawing cursor, the rotation origin, the text state, the selected glyph
// table and the flag word, with gfx_init, the setters and getters, the shape
// calls that paint through the pixel callback and the text calls. The pixel
// callback is the write log `log`; both rotations are the identity (angle 0).

module Graphics {
  import opened GfxHeader
  import opened Arith
  import opened Sink
  import Line
  import Shapes
  import Rectangles
  import Rounded
  import Glyph

  datatype Option<T> = None | Some(value: T)

  /** The three glyph tables the library links in (tiny_font, small_font, large_font). */
  datatype FontTables = FontTables(tiny: Font, small: Font, large: Font)

  predicate ValidTables(t: FontTables)
  {
    ValidFont(t.tiny) && ValidFont(t.small) && ValidFont(t.large)
  }

  /** gfx_set_font's switch: GFX_FONT_TINY and GFX_FONT_LARGE pick their own
      tables, every other value the small one. */
  function Selected(t: FontTables, font: int): (f: Font)
    ensures f == t.tiny || f == t.small || f == t.large
    ensures font == FONT_TINY as int ==> f == t.tiny
    ensures font == FONT_LARGE as int ==> f == t.large
    ensures f == t.small <== font != FONT_TINY as int && font != FONT_LARGE as int
  {
    if font == FONT_TINY as int then t.tiny
    else if font == FONT_LARGE as int then t.large
    else t.small
  }

  /** strlen: the number of bytes before the first NUL, or all of them. */
  function Strlen(s: seq<Channel>): (n: nat)
    ensures n <= |s|
    ensures forall i :: 0 <= i < n ==> s[i] != 0
    ensures n < |s| ==> s[n] == 0
  {
    if s == [] || s[0] == 0 then 0 else 1 + Strlen(s[1..])
  }

  /** A string without a NUL is measured in full; one with a NUL is not. */
  lemma StrlenFull(s: seq<Channel>)
    ensures Strlen(s) == |s| <==> 0 !in s
  {
    if 0 in s {
      var i :| 0 <= i < |s| && s[i] == 0;
      assert Strlen(s) <= i;
    }
  }

  /** The length of a concatenation: the first part's when it holds a NUL,
      otherwise all of the first part and then the length of the second. */
  lemma {:induction false} StrlenAppend(s: seq<Channel>, t: seq<Channel>)
    ensures Strlen(s + t) == if Strlen(s) < |s| then Strlen(s) else |s| + Strlen(t)
  {
    if s == [] {
      assert s + t == t;
    } else {
      assert (s + t)[0] == s[0] && (s + t)[1..] == s[1..] + t;
      if s[0] != 0 {
        StrlenAppend(s[1..], t);
        assert Strlen(s + t) == 1 + Strlen(s[1..] + t);
      }
    }
  }

  /** The callbacks of writing the bytes s one glyph after the other from
      (x, y), each glyph `advance` pixels to the right of the one before. */
  function TextWrites(d: Device, f: Font, x: int, y: int, tm: int, advance: int,
                      s: seq<Channel>, fg: Color, bg: Color): seq<Write>
    requires ValidFont(f)
  {
    if s == [] then []
    else
      var n := |s| - 1;
      TextWrites(d, f, x, y, tm, advance, s[..n], fg, bg) + Glyph.GlyphWrites(d, f, Column(x, n, advance), y, s[n], tm, fg, bg)
  }

  /** Where the glyph of the byte at index n starts. */
  function Column(x: int, n: int, advance: int): int
  {
    x + n * advance
  }

  /** Writing one more byte appends its glyph one advance further right. */
  lemma TextSnoc(d: Device, f: Font, x: int, y: int, tm: int, advance: int,
                 s: seq<Channel>, i: int, xi: int, fg: Color, bg: Color)
    requires ValidFont(f) && 0 <= i < |s| && xi == x + i * advance
    ensures TextWrites(d, f, x, y, tm, advance, s[..i + 1], fg, bg)
              == TextWrites(d, f, x, y, tm, advance, s[..i], fg, bg) + Glyph.GlyphWrites(d, f, xi, y, s[i], tm, fg, bg)
  {
    var t := s[..i + 1];
    TextUnfold(d, f, x, y, tm, advance, t, i, xi, fg, bg);
    assert t[..i] == s[..i];
  }

  /** A log holding the callbacks of s[..i] and then the glyph of s[i] at the
      next column holds those of s[..i + 1]; that column is one advance short
      of the one after. */
  lemma TextStep(l: seq<Write>, d: Device, f: Font, x: int, y: int, tm: int, advance: int,
                 s: seq<Channel>, i: int, xi: int, fg: Color, bg: Color)
    requires ValidFont(f) && 0 <= i < |s| && xi == x + i * advance
    ensures l + TextWrites(d, f, x, y, tm, advance, s[..i], fg, bg) + Glyph.GlyphWrites(d, f, xi, y, s[i], tm, fg, bg)
              == l + TextWrites(d, f, x, y, tm, advance, s[..i + 1], fg, bg)
    ensures xi + advance == x + (i + 1) * advance
  {
    TextSnoc(d, f, x, y, tm, advance, s, i, xi, fg, bg);
    AppendAssoc(l, TextWrites(d, f, x, y, tm, advance, s[..i], fg, bg), Glyph.GlyphWrites(d, f, xi, y, s[i], tm, fg, bg));
    MulSucc(i, advance);
  }

  /** One unfolding of TextWrites, with the last glyph's position given. */
  lemma TextUnfold(d: Device, f: Font, x: int, y: int, tm: int, advance: int,
                   t: seq<Channel>, n: int, xn: int, fg: Color, bg: Color)
    requires ValidFont(f) && n == |t| - 1 && 0 <= n && xn == x + n * advance
    ensures TextWrites(d, f, x, y, tm, advance, t, fg, bg)
              == TextWrites(d, f, x, y, tm, advance, t[..n], fg, bg) + Glyph.GlyphWrites(d, f, xn, y, t[n], tm, fg, bg)
  {
    assert t != [];
    assert Column(x, n, advance) == xn;
    assert TextWrites(d, f, x, y, tm, advance, t, fg, bg)
             == TextWrites(d, f, x, y, tm, advance, t[..n], fg, bg) + Glyph.GlyphWrites(d, f, Column(x, n, advance), y, t[n], tm, fg, bg);
  }

  /** The last byte's glyph ends the callbacks, one advance per earlier byte
      to the right of x. */
  lemma TextLast(d: Device, f: Font, x: int, y: int, tm: int, advance: int,
                 s: seq<Channel>, xn: int, fg: Color, bg: Color)
    requires ValidFont(f) && s != [] && xn == x + (|s| - 1) * advance
    ensures TextWrites(d, f, x, y, tm, advance, s, fg, bg)
              == TextWrites(d, f, x, y, tm, advance, s[..|s| - 1], fg, bg) + Glyph.GlyphWrites(d, f, xn, y, s[|s| - 1], tm, fg, bg)
  {
    TextSnoc(d, f, x, y, tm, advance, s, |s| - 1, xn, fg, bg);
    assert s[..|s|] == s;
  }

  /** Text is drawn in its two colours only: every callback carries the
      foreground, or the background when that differs from it. */
  lemma {:induction false} TextColors(d: Device, f: Font, x: int, y: int, tm: int, advance: int,
                                      s: seq<Channel>, fg: Color, bg: Color, wr: Write)
    requires ValidFont(f) && wr in TextWrites(d, f, x, y, tm, advance, s, fg, bg)
    ensures wr.color == fg || (wr.color == bg && !Same(bg, fg))
    ensures Same(bg, fg) ==> wr.color == fg
  {
    var n := |s| - 1;
    var xn := x + n * advance;
    var before := TextWrites(d, f, x, y, tm, advance, s[..n], fg, bg);
    var last := Glyph.GlyphWrites(d, f, xn, y, s[n], tm, fg, bg);
    TextLast(d, f, x, y, tm, advance, s, xn, fg, bg);
    if wr in before {
      TextColors(d, f, x, y, tm, advance, s[..n], fg, bg, wr);
    } else {
      Glyph.GlyphWritesColors(d, f, xn, y, s[n], tm, fg, bg, wr);
    }
  }

  lemma StrlenStep(s: seq<Channel>, i: int)
    requires 0 <= i <= Strlen(s) && i < |s| && s[i] != 0
    ensures i < Strlen(s)
  {
  }

  lemma AppendAssoc(a: seq<Write>, b: seq<Write>, c: seq<Write>)
    ensures a + b + c == a + (b + c)
  {
  }

  lemma MulSucc(i: int, a: int)
    ensures (i + 1) * a == i * a + a
  {
  }

  lemma MulRotate(i: int, m: int, w: int)
    ensures i * m * w == i * (w * m)
  {
  }

  /** Every field of the context, as one value. */
  datatype State = State(crx: int, cry: int, cx: int, cy: int, textCx: int, textCy: int,
                         fg: Color, bg: Color, magnify: int, font: int, glyphs: Font,
                         flags: bv32, log: seq<Write>)

  class Context {
    /** Display width and height. */
    const w: int
    const h: int
    /** The glyph tables gfx_set_font chooses from. */
    const tables: FontTables
    /** Centre of rotation (cr.x, cr.y). */
    var crx: int
    var cry: int
    /** The drawing cursor. */
    var cx: int
    var cy: int
    /** The text state: cursor, colours, magnification and font number. */
    var textCx: int
    var textCy: int
    var fg: Color
    var bg: Color
    var magnify: int
    var font: int
    /** The glyph table in use. */
    var glyphs: Font
    var flags: bv32
    /** Every pixel callback made so far, in order. */
    var log: seq<Write>

    ghost function Snapshot(): State
      reads this
    {
      State(crx, cry, cx, cy, textCx, textCy, fg, bg, magnify, font, glyphs, flags, log)
    }

    /** The glyph table is always the one the font number selects. */
    ghost predicate Valid()
      reads this
    {
      ValidTables(tables) && glyphs == Selected(tables, font)
    }

    /** What __paint_pixel and __paint_line read from the context. */
    function Device(): Device
      reads this
    {
      Sink.Device(w, h, flags & DISPLAY_INVERT != 0, Point(cx, cy))
    }

    /** gfx_init: the rotation centre in the middle of the display (C division),
        both cursors at the left edge, the text cursor one glyph height down,
        magnification 1, black on white, no flags and no callbacks yet. */
    constructor Init(width: int, height: int, fontNumber: int, fonts: FontTables)
      requires ValidTables(fonts)
      ensures w == width && h == height && tables == fonts
      ensures Snapshot() == State(CDiv(width, 2), CDiv(height, 2), 0, 0, 0, Selected(fonts, fontNumber).height,
                                  Rgb(0, 0, 0), Rgb(0xff, 0xff, 0xff), 1, fontNumber, Selected(fonts, fontNumber), 0, [])
      ensures Valid()
    {
      w, h, tables := width, height, fonts;
      crx, cry := CDiv(width, 2), CDiv(height, 2);
      cx, cy := 0, 0;
      font := fontNumber;
      glyphs := Selected(fonts, fontNumber);
      magnify := 1;
      textCx, textCy := 0, Selected(fonts, fontNumber).height;
      fg, bg := Rgb(0, 0, 0), Rgb(0xff, 0xff, 0xff);
      flags := 0;
      log := [];
    }

    /** gfx_set_rotation_origin */
    method SetRotationOrigin(x: int, y: int)
      modifies this
      ensures Snapshot() == old(Snapshot()).(crx := x, cry := y)
    {
      crx, cry := x, y;
    }

    /** gfx_draw_point: one pixel at the drawing cursor. */
    method DrawPoint(color: Color)
      modifies this
      ensures Snapshot() == old(Snapshot()).(log := old(log) + Plot(old(Device()), Point(cx, cy), color))
    {
      log := log + Plot(Device(), Point(cx, cy), color);
    }

    /** gfx_move_to */
    method MoveTo(x: int, y: int)
      modifies this
      ensures Snapshot() == old(Snapshot()).(cx := x, cy := y)
    {
      cx, cy := x, y;
    }

    /** gfx_move */
    method Move(x: int, y: int)
      modifies this
      ensures Snapshot() == old(Snapshot()).(cx := old(cx) + x, cy := old(cy) + y)
    {
      cx, cy := cx + x, cy + y;
    }

    /** gfx_draw_line: the line from the cursor to the cursor moved by (x, y),
        which then becomes the cursor. */
    method DrawLine(x: int, y: int, color: Color)
      modifies this
      ensures Snapshot() == old(Snapshot()).(cx := old(cx) + x, cy := old(cy) + y,
                log := old(log) + Emit(old(Device()), Line.LinePoints(old(cx), old(cy), old(cx) + x, old(cy) + y, old(Device()).cursor), color))
    {
      ghost var d := Device();
      ghost var pts := Line.LinePoints(cx, cy, cx + x, cy + y, d.cursor);
      var out := Line.PaintLine(Device(), cx, cy, cx + x, cy + y, color);
      assert out == Emit(d, pts, color);
      log := log + out;
      cx, cy := cx + x, cy + y;
    }

    /** gfx_draw_circle */
    method DrawCircle(r: int, color: Color)
      modifies this
      ensures Snapshot() == old(Snapshot()).(log := old(log) + Emit(old(Device()), Shapes.CirclePoints(Point(cx, cy), r, false), color))
    {
      var out := Shapes.DrawCircle(Device(), r, color);
      log := log + out;
    }

    /** gfx_fill_circle */
    method FillCircle(r: int, color: Color)
      modifies this
      ensures Snapshot() == old(Snapshot()).(log := old(log) + Emit(old(Device()), Shapes.CirclePoints(Point(cx, cy), r, true), color))
    {
      var out := Shapes.FillCircle(Device(), r, color);
      log := log + out;
    }

    /** gfx_draw_triangle */
    method DrawTriangle(x0: int, y0: int, x1: int, y1: int, color: Color)
      modifies this
      ensures Snapshot() == old(Snapshot()).(log := old(log) + Emit(old(Device()), Shapes.TriangleOutline(Point(cx, cy), x0, y0, x1, y1), color))
    {
      var out := Shapes.DrawTriangle(Device(), x0, y0, x1, y1, color);
      log := log + out;
    }

    /** gfx_fill_triangle */
    method FillTriangle(x0: int, y0: int, x1: int, y1: int, color: Color)
      modifies this
      ensures Snapshot() == old(Snapshot()).(log := old(log) + Emit(old(Device()), Shapes.FilledTrianglePoints(Point(cx, cy), x0, y0, x1, y1), color))
    {
      var out := Shapes.FillTriangle(Device(), x0, y0, x1, y1, color);
      log := log + out;
    }

    /** gfx_draw_rectangle */
    method DrawRectangle(width: int, height: int, color: Color)
      modifies this
      ensures Snapshot() == old(Snapshot()).(log := old(log) + Emit(old(Device()), Rectangles.OutlinePoints(Point(cx, cy), width, height), color))
    {
      var out := Rectangles.DrawRectangle(Device(), width, height, color);
      log := log + out;
    }

    /** gfx_fill_rectangle */
    method FillRectangle(width: int, height: int, color: Color)
      modifies this
      ensures Snapshot() == old(Snapshot()).(log := old(log) + Emit(old(Device()), Rectangles.FilledRectPoints(Point(cx, cy), width, height), color))
    {
      var out := Rectangles.FillRectangle(Device(), width, height, color);
      log := log + out;
    }

    /** gfx_fill_screen: the rotation is set aside for the call and put back,
        which with the identity transform leaves nothing to restore. */
    method FillScreen(color: Color)
      modifies this
      ensures Snapshot() == old(Snapshot()).(log := old(log) + Emit(old(Device()), Rectangles.ScreenPoints(old(Device())), color))
    {
      var out := Rectangles.FillScreen(Device(), color);
      log := log + out;
    }

    /** gfx_draw_rounded_rectangle */
    method DrawRoundedRectangle(width: int, height: int, r: int, color: Color)
      modifies this
      ensures Snapshot() == old(Snapshot()).(log := old(log) + Emit(old(Device()), Rounded.RoundedOutlinePoints(Point(cx, cy), width, height, r), color))
    {
      var out := Rounded.DrawRoundedRectangle(Device(), width, height, r, color);
      log := log + out;
    }

    /** gfx_fill_rounded_rectangle */
    method FillRoundedRectangle(width: int, height: int, r: int, color: Color)
      modifies this
      ensures Snapshot() == old(Snapshot()).(log := old(log) + Emit(old(Device()), Rounded.RoundedFillPoints(Point(cx, cy), width, height, r), color))
    {
      var out := Rounded.FillRoundedRectangle(Device(), width, height, r, color);
      log := log + out;
    }

    /** gfx_set_text_cursor */
    method SetTextCursor(x: int, y: int)
      modifies this
      ensures Snapshot() == old(Snapshot()).(textCx := x, textCy := y)
    {
      textCx, textCy := x, y;
    }

    /** gfx_set_text_color */
    method SetTextColor(fore: Color, back: Color)
      modifies this
      ensures Snapshot() == old(Snapshot()).(fg := fore, bg := back)
    {
      fg, bg := fore, back;
    }

    /** gfx_set_text_size */
    method SetTextSize(size: int)
      modifies this
      ensures Snapshot() == old(Snapshot()).(magnify := size)
    {
      magnify := size;
    }

    /** gfx_get_text_height: the line height of the selected table. */
    function GetTextHeight(): (n: int)
      requires Valid()
      reads this
      ensures n == Selected(tables, font).height
    {
      glyphs.height
    }

    /** gfx_get_text_baseline: the baseline of the selected table. */
    function GetTextBaseline(): (n: int)
      requires Valid()
      reads this
      ensures n == Selected(tables, font).baseline
    {
      glyphs.baseline
    }

    /** gfx_get_text_width: the advance width of the selected table. */
    function GetTextWidth(): (n: int)
      requires Valid()
      reads this
      ensures n == Selected(tables, font).width
    {
      glyphs.width
    }

    /** gfx_get_string_width: 0 for a NULL string, otherwise the bytes before
        its NUL times the magnification times the advance width. */
    function GetStringWidth(str: Option<seq<Channel>>): (w: int)
      reads this
      ensures str == None ==> w == 0
      ensures str != None && 0 !in str.value ==> w == |str.value| * magnify * glyphs.width
    {
      match str
      case None => 0
      case Some(s) => StrlenFull(s); Strlen(s) * magnify * glyphs.width
    }

    /** A NULL string has width zero; any other, at a magnification that is
        not negative, is at most its length times the magnified advance. */
    lemma StringWidthBound(str: Option<seq<Channel>>)
      ensures str == None ==> GetStringWidth(str) == 0
      ensures magnify >= 0 && str != None ==> 0 <= GetStringWidth(str) <= |str.value| * magnify * glyphs.width
    {
      if str.Some? {
        ScaleBound(Strlen(str.value), |str.value|, magnify, glyphs.width as int);
      }
    }

    /** The width of a string is the width of the bytes before its NUL: what
        follows the terminator adds nothing, and without a NUL the widths of
        the two parts of a concatenation add up. */
    lemma StringWidthAppend(s: seq<Channel>, t: seq<Channel>)
      ensures 0 in s ==> GetStringWidth(Some(s + t)) == GetStringWidth(Some(s))
      ensures 0 !in s ==> GetStringWidth(Some(s + t)) == GetStringWidth(Some(s)) + GetStringWidth(Some(t))
    {
      StrlenAppend(s, t);
      StrlenFull(s);
      if 0 !in s {
        ScaleSum(Strlen(s), Strlen(t), magnify, glyphs.width as int);
      }
    }

    /** gfx_get_font: the number of the selected font, the one whose table is in use. */
    function GetFont(): (n: int)
      reads this
      ensures Valid() ==> glyphs == Selected(tables, n)
    {
      font
    }

    /** gfx_set_font: records the font number, selects its table and returns
        the number it replaces. */
    method SetFont(fontNumber: int) returns (previous: int)
      requires Valid()
      modifies this
      ensures previous == old(GetFont()) && GetFont() == fontNumber
      ensures Snapshot() == old(Snapshot()).(font := fontNumber, glyphs := Selected(tables, fontNumber))
      ensures Valid()
    {
      previous := font;
      font := fontNumber;
      glyphs := Selected(tables, fontNumber);
    }

    /** gfx_draw_glyph: the glyph for cp at the text cursor, which stays put. */
    method DrawGlyph(cp: Channel, fore: Color, back: Color)
      requires Valid()
      modifies this
      ensures Valid()
      ensures Snapshot() == old(Snapshot()).(log := old(log) + Glyph.GlyphWrites(old(Device()), glyphs, textCx, textCy, cp, magnify, fore, back))
    {
      var out := Glyph.PaintGlyph(Device(), glyphs, textCx, textCy, cp, magnify, fore, back);
      log := log + out;
    }

    /** gfx_putc: the glyph in the text colours at the text cursor, then the
        cursor one advance width times the magnification to the right. */
    method Putc(ch: Channel)
      requires Valid()
      modifies this
      ensures Valid()
      ensures Snapshot() == old(Snapshot()).(textCx := old(textCx) + glyphs.width * magnify,
                log := old(log) + Glyph.GlyphWrites(old(Device()), glyphs, old(textCx), textCy, ch, magnify, fg, bg))
      ensures log == old(log) + Glyph.GlyphWrites(old(Device()), glyphs, old(textCx), textCy, ch, magnify, fg, bg)
    {
      var out := Glyph.PaintGlyph(Device(), glyphs, textCx, textCy, ch, magnify, fg, bg);
      log := log + out;
      textCx := textCx + glyphs.width * magnify;
    }

    /** gfx_puts: every byte before the first NUL through gfx_putc. The text
        cursor ends GetStringWidth of the string further to the right. */
    method Puts(s: seq<Channel>)
      requires Valid()
      modifies this
      ensures Valid()
      ensures Snapshot() == old(Snapshot()).(textCx := old(textCx) + old(GetStringWidth(Some(s))),
                log := old(log) + TextWrites(old(Device()), glyphs, old(textCx), textCy, magnify, glyphs.width * magnify,
                                             s[..Strlen(s)], fg, bg))
    {
      ghost var f, y, tm, fore, back := glyphs, textCy, magnify, fg, bg;
      ghost var advance := f.width * tm;
      ghost var d0 := Device();
      ghost var x0 := textCx;
      ghost var rest := old(Snapshot());
      var i := 0;
      while i < |s| && s[i] != 0
        invariant 0 <= i <= Strlen(s)
        invariant Device() == d0
        invariant Snapshot() == rest.(textCx := textCx, log := log)
        invariant textCx == x0 + i * advance
        invariant log == old(log) + TextWrites(d0, f, x0, y, tm, advance, s[..i], fore, back)
      {
        StrlenStep(s, i);
        TextStep(old(log), d0, f, x0, y, tm, advance, s, i, textCx, fore, back);
        Putc(s[i]);
        i := i + 1;
      }
      assert i == Strlen(s);
      MulRotate(i, magnify, glyphs.width);
      assert textCx == old(textCx) + old(GetStringWidth(Some(s)));
      assert log == old(log) + TextWrites(d0, f, x0, y, tm, advance, s[..Strlen(s)], fore, back);
    }

    /** gfx_set_mirrored: sets GFX_DISPLAY_INVERT when m is non-zero and clears
        it otherwise. */
    method SetMirrored(m: int)
      modifies this
      ensures Snapshot() == old(Snapshot()).(flags := SetInvert(old(flags), m != 0))
      ensures Device().mirrored == (m != 0)
    {
      if m != 0 {
        flags := flags | DISPLAY_INVERT;
      } else {
        flags := flags & !DISPLAY_INVERT;
      }
    }

    /** gfx_get_mirrored: 1 when GFX_DISPLAY_INVERT is set, 0 otherwise. */
    function GetMirrored(): (m: int)
      reads this
      ensures m == 0 || m == 1
      ensures m == 1 <==> Device().mirrored
    {
      if flags & DISPLAY_INVERT != 0 then 1 else 0
    }
  }
}
