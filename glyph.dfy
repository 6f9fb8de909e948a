// The glyph renderer __paint_glyph (lib/src/gfx.c:955-1011): every byte of a
// glyph holds seven bit-cells, the first byte's top bit is the descender flag,
// a set bit paints the foreground and a clear bit the background unless the
// two colours are the same. Text rotation is the identity (angle 0).

module Glyph {
  import opened GfxHeader
  import opened Sink
  import opened Scan
  import opened Triangle

  /** One bit-cell of a glyph: its offset from the character origin, already
      multiplied by the magnification, and whether its bit is set. */
  datatype Cell = Cell(dx: int, dy: int, lit: bool)

  /** The guard of __paint_glyph as written: only a code point above `chars` is
      turned away. */
  predicate PassesGuard(f: Font, c: Channel)
  {
    !(c > f.chars)
  }

  /** A code point names one of the font's glyphs exactly when it is below `chars`. */
  predicate HasGlyph(f: Font, c: Channel)
  {
    c < f.chars
  }

  /** The guard as written lets the code point `chars` through, although a table
      of `chars` glyphs ends where that glyph would start. */
  lemma GuardPassesPastTable(f: Font)
    requires ValidFont(f) && 0 <= f.chars < 256 && 0 < f.size && |f.raw| == f.chars * f.size
    ensures PassesGuard(f, f.chars) && !HasGlyph(f, f.chars)
    ensures |f.raw| < f.size * f.chars + f.size
  {
  }

  /** The guards differ on the code point `chars` and on no other. */
  lemma GuardsDiffer(f: Font, c: Channel)
    ensures PassesGuard(f, c) && !HasGlyph(f, c) <==> c == f.chars
    ensures HasGlyph(f, c) ==> PassesGuard(f, c)
  {
  }

  /** The glyph of a code point below `chars` starts size * c bytes into the
      table, and its size bytes lie inside the table. */
  lemma GlyphInTable(f: Font, c: int)
    requires ValidFont(f) && 0 <= c < f.chars && 0 < f.size
    ensures 0 <= f.size * c && f.size * c + f.size <= |f.raw|
  {
    assert f.size * (c + 1) <= f.size * f.chars by {
      assert f.size * (f.chars - (c + 1)) >= 0;
    }
    assert f.size * (c + 1) == f.size * c + f.size;
  }

  /** The bytes of the glyph for code point c. */
  function GlyphBytes(f: Font, c: int): (bytes: seq<bv8>)
    requires ValidFont(f) && 0 <= c < f.chars && 0 < f.size
    ensures 0 <= f.size * c && f.size * c + f.size <= |f.raw|
    ensures |bytes| == f.size
    ensures forall k :: 0 <= k < f.size ==> bytes[k] == f.raw[f.size * c + k]
  {
    GlyphInTable(f, c);
    f.raw[f.size * c .. f.size * c + f.size]
  }

  /** 1 when the top bit of the glyph's first byte marks a descender, else 0. */
  function Descender(bytes: seq<bv8>): int
    requires |bytes| > 0
  {
    if bytes[0] & 0x80 != 0 then 1 else 0
  }

  /** Bit i of a glyph byte, counted from 0x40 down to 0x01. */
  predicate BitSet(b: bv8, i: nat)
    requires i < 7
  {
    b & (0x40 >> i) != 0
  }

  /** Cell i of byte k: a row-ordered font steps x with the bit and y with the
      byte, a column-ordered one the other way round; a descender drops the
      glyph by three rows, the baseline raises it, and both offsets are
      multiplied by the magnification tm. */
  function CellAt(f: Font, bytes: seq<bv8>, tm: int, desc: int, k: int, i: nat): Cell
    requires 0 <= k < |bytes| && i < 7
  {
    var dx := if f.byrow != 0 then i else k;
    var dy := (if f.byrow != 0 then k else i) + desc * 3 - f.baseline;
    Cell(dx * tm, dy * tm, BitSet(bytes[k], i))
  }

  lemma CellOffsets(f: Font, bytes: seq<bv8>, tm: int, desc: int, k: int, i: nat, u: int, v: int)
    requires 0 <= k < |bytes| && i < 7
    requires u == (if f.byrow != 0 then i else k)
    requires v == (if f.byrow != 0 then k else i) + desc * 3 - f.baseline
    ensures CellAt(f, bytes, tm, desc, k, i) == Cell(u * tm, v * tm, BitSet(bytes[k], i))
  {
  }

  /** The first n cells of byte k, in the order the inner loop visits them. */
  function BitCells(f: Font, bytes: seq<bv8>, tm: int, desc: int, k: int, n: nat): (cells: seq<Cell>)
    requires 0 <= k < |bytes| && n <= 7
    ensures |cells| == n
    ensures forall i :: 0 <= i < n ==> cells[i] == CellAt(f, bytes, tm, desc, k, i)
  {
    if n == 0 then [] else BitCells(f, bytes, tm, desc, k, n - 1) + [CellAt(f, bytes, tm, desc, k, n - 1)]
  }

  /** The seven cells of byte k. */
  function RowCells(f: Font, bytes: seq<bv8>, tm: int, desc: int, k: int): seq<Cell>
    requires 0 <= k < |bytes|
  {
    BitCells(f, bytes, tm, desc, k, 7)
  }

  /** The cells of the first m bytes, in visiting order. */
  function Rows(f: Font, bytes: seq<bv8>, tm: int, desc: int, m: nat): seq<Cell>
    requires m <= |bytes|
  {
    if m == 0 then [] else Rows(f, bytes, tm, desc, m - 1) + RowCells(f, bytes, tm, desc, m - 1)
  }

  /** The cells __paint_glyph visits for code point c at magnification tm: none
      for a code point the font has no glyph for, otherwise size x 7 of them
      (none when size is not positive). */
  function GlyphCells(f: Font, c: Channel, tm: int): seq<Cell>
    requires ValidFont(f)
  {
    if !HasGlyph(f, c) || f.size <= 0 then []
    else
      var bytes := GlyphBytes(f, c);
      Rows(f, bytes, tm, Descender(bytes), f.size)
  }

  /** The pixels of one cell with its corner at lo: when magnified, the two
      triangles that fill the closed box from lo to lo + (tm, tm), each scanned
      over that box (CellHalves); otherwise the single pixel lo. */
  function CellPoints(cur: Point, lo: Point, tm: int): seq<Point>
  {
    if tm > 1 then
      BoxPoints(Inside(LowerHalf(lo.x, lo.y, lo.x + tm, lo.y + tm)), lo.x, tm + 1, lo.y, tm + 1) +
      BoxPoints(Inside(UpperHalf(lo.x, lo.y, lo.x + tm, lo.y + tm)), lo.x, tm + 1, lo.y, tm + 1)
    else [lo]
  }

  /** A magnified cell is what the two __paint_triangle calls paint. */
  lemma CellHalves(cur: Point, lo: Point, tm: int)
    requires tm > 1
    ensures CellPoints(cur, lo, tm) == Halves(lo, Point(lo.x + tm, lo.y + tm), cur)
  {
    LowerCell(cur, lo, tm);
    UpperCell(cur, lo, tm);
  }

  lemma LowerCell(cur: Point, lo: Point, tm: int)
    requires tm > 1
    ensures TrianglePoints(LowerHalf(lo.x, lo.y, lo.x + tm, lo.y + tm), cur)
              == BoxPoints(Inside(LowerHalf(lo.x, lo.y, lo.x + tm, lo.y + tm)), lo.x, tm + 1, lo.y, tm + 1)
  {
    var t := LowerHalf(lo.x, lo.y, lo.x + tm, lo.y + tm);
    assert Cross(t) != 0 by {
      MulPos(tm, tm);
      assert Cross(t) == tm * tm;
    }
    assert Min3(lo.x, lo.x + tm, lo.x + tm) == lo.x && Max3(lo.x, lo.x + tm, lo.x + tm) == lo.x + tm;
    assert Min3(lo.y, lo.y, lo.y + tm) == lo.y && Max3(lo.y, lo.y, lo.y + tm) == lo.y + tm;
    ProperIsBox(t, cur);
  }

  lemma UpperCell(cur: Point, lo: Point, tm: int)
    requires tm > 1
    ensures TrianglePoints(UpperHalf(lo.x, lo.y, lo.x + tm, lo.y + tm), cur)
              == BoxPoints(Inside(UpperHalf(lo.x, lo.y, lo.x + tm, lo.y + tm)), lo.x, tm + 1, lo.y, tm + 1)
  {
    var t := UpperHalf(lo.x, lo.y, lo.x + tm, lo.y + tm);
    assert Cross(t) != 0 by {
      MulPos(tm, tm);
      assert Cross(t) == -(tm * tm);
    }
    assert Min3(lo.x, lo.x, lo.x + tm) == lo.x && Max3(lo.x, lo.x, lo.x + tm) == lo.x + tm;
    assert Min3(lo.y, lo.y + tm, lo.y + tm) == lo.y && Max3(lo.y, lo.y + tm, lo.y + tm) == lo.y + tm;
    ProperIsBox(t, cur);
  }

  /** The colour a cell is painted in, when it is painted at all. */
  function Ink(cell: Cell, fg: Color, bg: Color): Color
  {
    if cell.lit then fg else bg
  }

  /** A set cell is painted; a clear one only when bg and fg differ in r, g or b. */
  predicate Painted(cell: Cell, fg: Color, bg: Color)
  {
    cell.lit || !Same(bg, fg)
  }

  /** The callbacks for one cell of a glyph whose origin is (x, y). */
  function CellWrites(d: Device, x: int, y: int, tm: int, cell: Cell, fg: Color, bg: Color): seq<Write>
  {
    var lo := Point(x + cell.dx, y + cell.dy);
    if Painted(cell, fg, bg) then CellPaint(d, lo, tm, Ink(cell, fg, bg)) else []
  }

  /** The callbacks for the pixels of one cell in one colour. */
  function CellPaint(d: Device, lo: Point, tm: int, color: Color): seq<Write>
  {
    Emit(d, CellPoints(d.cursor, lo, tm), color)
  }

  /** The callbacks of each cell of a glyph whose origin is (x, y). */
  function Painter(d: Device, x: int, y: int, tm: int, fg: Color, bg: Color): Cell -> seq<Write>
  {
    cell => CellWrites(d, x, y, tm, cell, fg, bg)
  }

  /** The callbacks for a run of cells, one cell after the other. */
  function Concat(paint: Cell -> seq<Write>, cells: seq<Cell>): seq<Write>
  {
    if cells == [] then [] else Concat(paint, cells[..|cells| - 1]) + paint(cells[|cells| - 1])
  }

  /** The callbacks of the glyph for c at (x, y) with magnification tm. */
  function GlyphWrites(d: Device, f: Font, x: int, y: int, c: Channel, tm: int, fg: Color, bg: Color): seq<Write>
    requires ValidFont(f)
  {
    Concat(Painter(d, x, y, tm, fg, bg), GlyphCells(f, c, tm))
  }

  /** Appending one cell appends its callbacks. */
  lemma ConcatSnoc(paint: Cell -> seq<Write>, cells: seq<Cell>, cell: Cell)
    ensures Concat(paint, cells + [cell]) == Concat(paint, cells) + paint(cell)
  {
    assert (cells + [cell])[..|cells|] == cells;
  }

  /** `paint` gives the callbacks of every cell of a glyph whose origin is
      (x, y). The trigger keeps the painting loops from unfolding CellWrites. */
  ghost predicate PaintsCells(paint: Cell -> seq<Write>, d: Device, x: int, y: int, tm: int, fg: Color, bg: Color)
  {
    forall cell {:trigger CellWrites(d, x, y, tm, cell, fg, bg)} :: paint(cell) == CellWrites(d, x, y, tm, cell, fg, bg)
  }

  /** __paint_glyph at (x, y) with magnification tm: its callbacks are those of
      the glyph's cells in visiting order. A code point without a glyph, `chars`
      included, paints nothing (the corrected guard, see HasGlyph). */
  method PaintGlyph(d: Device, f: Font, x: int, y: int, c: Channel, tm: int, fg: Color, bg: Color)
    returns (out: seq<Write>)
    requires ValidFont(f)
    ensures out == GlyphWrites(d, f, x, y, c, tm, fg, bg)
  {
    if !HasGlyph(f, c) {
      return []; // no glyph for this character
    }
    if f.size <= 0 {
      return []; // no bytes to visit
    }
    GlyphInTable(f, c);
    var base := f.size * c;
    var desc := if f.raw[base] & 0x80 != 0 then 1 else 0;
    ghost var bytes := GlyphBytes(f, c);
    ghost var paint := Painter(d, x, y, tm, fg, bg);
    assert PaintsCells(paint, d, x, y, tm, fg, bg) by {
      forall cell {:trigger CellWrites(d, x, y, tm, cell, fg, bg)}
        ensures paint(cell) == CellWrites(d, x, y, tm, cell, fg, bg)
      {
      }
    }
    out := PaintRows(d, f, bytes, base, desc, x, y, tm, fg, bg, paint);
    assert desc == Descender(bytes);
  }

  /** The outer loop of __paint_glyph over the glyph's bytes. */
  method PaintRows(d: Device, f: Font, ghost bytes: seq<bv8>, base: int, desc: int,
                   x: int, y: int, tm: int, fg: Color, bg: Color, ghost paint: Cell -> seq<Write>)
    returns (out: seq<Write>)
    requires |bytes| == f.size && 0 <= base && base + |bytes| <= |f.raw|
    requires forall j :: 0 <= j < |bytes| ==> bytes[j] == f.raw[base + j]
    requires PaintsCells(paint, d, x, y, tm, fg, bg)
    ensures out == Concat(paint, Rows(f, bytes, tm, desc, |bytes|))
  {
    out := [];
    var k := 0;
    while k < f.size
      invariant 0 <= k <= f.size
      invariant out == Concat(paint, Rows(f, bytes, tm, desc, k))
    {
      var next := k + 1;
      out := PaintRow(d, f, bytes, base, k, next, desc, x, y, tm, fg, bg, paint, out);
      k := next;
    }
  }

  /** The inner loop of __paint_glyph over the seven bits of byte k. */
  method PaintRow(d: Device, f: Font, ghost bytes: seq<bv8>, base: int, k: int, ghost next: nat, desc: int,
                  x: int, y: int, tm: int, fg: Color, bg: Color, ghost paint: Cell -> seq<Write>, prefix: seq<Write>)
    returns (out: seq<Write>)
    requires 0 <= k < |bytes| && next == k + 1 && 0 <= base && base + |bytes| <= |f.raw|
    requires forall j :: 0 <= j < |bytes| ==> bytes[j] == f.raw[base + j]
    requires PaintsCells(paint, d, x, y, tm, fg, bg)
    requires prefix == Concat(paint, Rows(f, bytes, tm, desc, k))
    ensures out == Concat(paint, Rows(f, bytes, tm, desc, next))
  {
    ghost var done := Rows(f, bytes, tm, desc, k);
    out := prefix;
    assert done + BitCells(f, bytes, tm, desc, k, 0) == done;
    var i := 0;
    while i < 7
      invariant 0 <= i <= 7
      invariant out == Concat(paint, done + BitCells(f, bytes, tm, desc, k, i))
    {
      var cell := CellOf(f, bytes, base, k, i, desc, tm);
      var s := PaintBit(d, x, y, tm, cell, fg, bg, paint);
      ghost var cells := done + BitCells(f, bytes, tm, desc, k, i);
      ConcatSnoc(paint, cells, cell);
      CellsSnoc(f, bytes, tm, desc, k, i, done, cell);
      out := out + s;
      i := i + 1;
    }
  }

  /** One more bit appends its cell after those already painted. */
  lemma CellsSnoc(f: Font, bytes: seq<bv8>, tm: int, desc: int, k: int, i: nat, done: seq<Cell>, cell: Cell)
    requires 0 <= k < |bytes| && i < 7 && cell == CellAt(f, bytes, tm, desc, k, i)
    ensures done + BitCells(f, bytes, tm, desc, k, i + 1) == (done + BitCells(f, bytes, tm, desc, k, i)) + [cell]
  {
  }

  /** The bit and the magnified offsets of cell i of byte k, read from the table. */
  method CellOf(f: Font, ghost bytes: seq<bv8>, base: int, k: int, i: nat, desc: int, tm: int) returns (cell: Cell)
    requires 0 <= k < |bytes| && i < 7 && 0 <= base && base + |bytes| <= |f.raw|
    requires forall j :: 0 <= j < |bytes| ==> bytes[j] == f.raw[base + j]
    ensures cell == CellAt(f, bytes, tm, desc, k, i)
  {
    var bit := BitSet(f.raw[base + k], i);
    var dx := if f.byrow != 0 then i else k;
    var dy := (if f.byrow != 0 then k else i) + desc * 3 - f.baseline;
    CellOffsets(f, bytes, tm, desc, k, i, dx, dy);
    cell := Cell(dx * tm, dy * tm, bit);
  }

  /** The body of the inner loop: a set bit paints the cell in fg, a clear one
      in bg unless SAME_COLOR(bg, fg). */
  method PaintBit(d: Device, x: int, y: int, tm: int, cell: Cell, fg: Color, bg: Color, ghost paint: Cell -> seq<Write>)
    returns (out: seq<Write>)
    requires PaintsCells(paint, d, x, y, tm, fg, bg)
    ensures out == paint(cell)
  {
    var lo := Point(x + cell.dx, y + cell.dy);
    if cell.lit {
      out := PaintCell(d, lo, tm, fg);
      assert Painted(cell, fg, bg) && Ink(cell, fg, bg) == fg;
    } else if !Same(bg, fg) {
      out := PaintCell(d, lo, tm, bg);
      assert Painted(cell, fg, bg) && Ink(cell, fg, bg) == bg;
    } else {
      out := [];
    }
    assert out == CellWrites(d, x, y, tm, cell, fg, bg);
  }

  /** One cell: two __paint_triangle calls when magnified, one __paint_pixel otherwise. */
  method PaintCell(d: Device, lo: Point, tm: int, color: Color) returns (out: seq<Write>)
    ensures out == CellPaint(d, lo, tm, color)
  {
    var hi := Point(lo.x + tm, lo.y + tm);
    if tm > 1 {
      out := PaintHalves(d, lo, hi, color);
      CellHalves(d.cursor, lo, tm);
    } else {
      out := Plot(d, lo, color);
      assert CellPoints(d.cursor, lo, tm) == [lo];
      assert Emit(d, [lo], color) == Emit(d, [], color) + Plot(d, lo, color);
    }
  }

  /** The pixels of a cell: the closed box from its corner to tm further on
      each axis when magnified, otherwise the corner pixel alone. */
  predicate InCell(lo: Point, tm: int, p: Point)
  {
    if tm > 1 then lo.x <= p.x <= lo.x + tm && lo.y <= p.y <= lo.y + tm
    else p == lo
  }

  /** A cell paints exactly the pixels of InCell. */
  lemma CellPointsMember(cur: Point, lo: Point, tm: int, p: Point)
    ensures p in CellPoints(cur, lo, tm) <==> InCell(lo, tm, p)
  {
    var hi := Point(lo.x + tm, lo.y + tm);
    if tm > 1 {
      CellHalves(cur, lo, tm);
      HalvesMember(lo, hi, cur, p);
    } else {
      assert CellPoints(cur, lo, tm) == [lo];
    }
  }

  /** Neighbouring magnified cells share a column: the right edge of one cell
      is the left edge of the next, so the later cell paints over it. */
  lemma MagnifiedCellsOverlap(cur: Point, x: int, y: int, tm: int)
    requires tm > 1
    ensures Point(x + tm, y) in CellPoints(cur, Point(x, y), tm)
    ensures Point(x + tm, y) in CellPoints(cur, Point(x + tm, y), tm)
  {
    CellPointsMember(cur, Point(x, y), tm, Point(x + tm, y));
    CellPointsMember(cur, Point(x + tm, y), tm, Point(x + tm, y));
  }

  /** One cell in one colour calls back exactly for its on-screen pixels. */
  lemma CellPaintMember(d: Device, lo: Point, tm: int, color: Color, wr: Write)
    ensures wr in CellPaint(d, lo, tm, color) <==>
              wr.color == color && 0 <= wr.x < d.w && 0 <= wr.y < d.h && InCell(lo, tm, Point(DeviceX(d, wr.x), wr.y))
  {
    EmitPixel(d, CellPoints(d.cursor, lo, tm), color, wr);
    CellPointsMember(d.cursor, lo, tm, Point(DeviceX(d, wr.x), wr.y));
  }

  /** A callback belongs to a cell exactly when the cell is painted, the
      callback has the cell's colour, and it is on screen at a pixel of the
      cell once mirroring is undone. */
  lemma CellWriteMember(d: Device, x: int, y: int, tm: int, cell: Cell, fg: Color, bg: Color, wr: Write)
    ensures wr in CellWrites(d, x, y, tm, cell, fg, bg) <==>
              Painted(cell, fg, bg) && wr.color == Ink(cell, fg, bg) &&
              0 <= wr.x < d.w && 0 <= wr.y < d.h &&
              InCell(Point(x + cell.dx, y + cell.dy), tm, Point(DeviceX(d, wr.x), wr.y))
  {
    var lo := Point(x + cell.dx, y + cell.dy);
    CellWritesPaint(d, x, y, tm, cell, fg, bg, lo);
    if Painted(cell, fg, bg) {
      CellPaintMember(d, lo, tm, Ink(cell, fg, bg), wr);
    }
  }

  lemma CellWritesPaint(d: Device, x: int, y: int, tm: int, cell: Cell, fg: Color, bg: Color, lo: Point)
    requires lo == Point(x + cell.dx, y + cell.dy)
    ensures CellWrites(d, x, y, tm, cell, fg, bg) == if Painted(cell, fg, bg) then CellPaint(d, lo, tm, Ink(cell, fg, bg)) else []
  {
  }

  /** A callback belongs to a run of cells exactly when it belongs to one of them. */
  lemma {:induction false} ConcatMember(paint: Cell -> seq<Write>, cells: seq<Cell>, wr: Write)
    ensures wr in Concat(paint, cells) <==> exists j :: 0 <= j < |cells| && wr in paint(cells[j])
    decreases |cells|
  {
    if cells != [] {
      var init := cells[..|cells| - 1];
      ConcatMember(paint, init, wr);
      if exists j :: 0 <= j < |cells| && wr in paint(cells[j]) {
        var j :| 0 <= j < |cells| && wr in paint(cells[j]);
        if j < |init| {
          assert init[j] == cells[j];
        }
      }
      if wr in Concat(paint, init) {
        var j :| 0 <= j < |init| && wr in paint(init[j]);
        assert cells[j] == init[j];
      }
    }
  }

  /** Every callback of a glyph is in fg or bg, and in bg only when bg and fg
      differ: with SAME_COLOR(bg, fg) the background is transparent. */
  lemma GlyphColors(d: Device, x: int, y: int, tm: int, cells: seq<Cell>, fg: Color, bg: Color, wr: Write)
    requires wr in Concat(Painter(d, x, y, tm, fg, bg), cells)
    ensures wr.color == fg || (wr.color == bg && !Same(bg, fg))
    ensures Same(bg, fg) ==> wr.color == fg
  {
    ConcatMember(Painter(d, x, y, tm, fg, bg), cells, wr);
    var j :| 0 <= j < |cells| && wr in Painter(d, x, y, tm, fg, bg)(cells[j]);
    CellWriteMember(d, x, y, tm, cells[j], fg, bg, wr);
  }

  /** A glyph is drawn in the text colours only. */
  lemma GlyphWritesColors(d: Device, f: Font, x: int, y: int, c: Channel, tm: int, fg: Color, bg: Color, wr: Write)
    requires ValidFont(f) && wr in GlyphWrites(d, f, x, y, c, tm, fg, bg)
    ensures wr.color == fg || (wr.color == bg && !Same(bg, fg))
    ensures Same(bg, fg) ==> wr.color == fg
  {
    GlyphColors(d, x, y, tm, GlyphCells(f, c, tm), fg, bg, wr);
  }

  /** The cells of the first m bytes: seven per byte, byte by byte, bit 0x40 first. */
  lemma {:induction false} RowsShape(f: Font, bytes: seq<bv8>, tm: int, desc: int, m: nat)
    requires m <= |bytes|
    ensures |Rows(f, bytes, tm, desc, m)| == 7 * m
    ensures forall k, i :: 0 <= k < m && 0 <= i < 7 ==>
              Rows(f, bytes, tm, desc, m)[7 * k + i] == CellAt(f, bytes, tm, desc, k, i)
  {
    if m > 0 {
      RowsShape(f, bytes, tm, desc, m - 1);
      var prev, row := Rows(f, bytes, tm, desc, m - 1), RowCells(f, bytes, tm, desc, m - 1);
      forall k, i | 0 <= k < m && 0 <= i < 7
        ensures (prev + row)[7 * k + i] == CellAt(f, bytes, tm, desc, k, i)
      {
        if k < m - 1 {
          assert 7 * k + i < 7 * (m - 1);
        } else {
          assert 7 * k + i == |prev| + i;
        }
      }
    }
  }

  /** A glyph visits size x 7 cells, cell i of byte k at position 7 k + i, and
      none at all for a code point the font has no glyph for. */
  lemma GlyphCellCount(f: Font, c: Channel, tm: int)
    requires ValidFont(f)
    ensures |GlyphCells(f, c, tm)| == if HasGlyph(f, c) && 0 < f.size then 7 * f.size else 0
    ensures HasGlyph(f, c) && 0 < f.size ==>
              var bytes := GlyphBytes(f, c);
              forall k, i :: 0 <= k < f.size && 0 <= i < 7 ==>
                GlyphCells(f, c, tm)[7 * k + i] == CellAt(f, bytes, tm, Descender(bytes), k, i)
  {
    if HasGlyph(f, c) && 0 < f.size {
      var bytes := GlyphBytes(f, c);
      RowsShape(f, bytes, tm, Descender(bytes), f.size);
    }
  }

  /** Consecutive bits of a byte are neighbouring cells, tm apart along x in a
      row-ordered font and along y in a column-ordered one. */
  lemma NeighbourCells(f: Font, bytes: seq<bv8>, tm: int, desc: int, k: int, i: nat)
    requires 0 <= k < |bytes| && i < 6
    ensures var a, b := CellAt(f, bytes, tm, desc, k, i), CellAt(f, bytes, tm, desc, k, i + 1);
            if f.byrow != 0 then b.dx == a.dx + tm && b.dy == a.dy
            else b.dx == a.dx && b.dy == a.dy + tm
  {
  }

  /** The descender flag moves every cell down by three magnified rows. */
  lemma DescenderDrop(f: Font, bytes: seq<bv8>, tm: int, k: int, i: nat)
    requires 0 <= k < |bytes| && i < 7
    ensures CellAt(f, bytes, tm, 1, k, i) == CellAt(f, bytes, tm, 0, k, i).(dy := CellAt(f, bytes, tm, 0, k, i).dy + 3 * tm)
  {
  }

  /** The top bit of a byte is never a cell: clearing it changes no cell. */
  lemma TopBitIsNoCell(b: bv8, i: nat)
    requires i < 7
    ensures BitSet(b, i) == BitSet(b & 0x7f, i)
  {
  }
}
