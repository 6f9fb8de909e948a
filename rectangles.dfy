// The rectangle rasteriser __paint_rectangle (lib/src/gfx.c:244-251) and the
// shape calls built on it and on the line rasteriser: gfx_draw_rectangle,
// gfx_fill_rectangle and gfx_fill_screen (lib/src/gfx.c:604-679). Every shape
// is placed at the drawing cursor, which it does not move.

module Rectangles {
  import opened GfxHeader
  import opened Arith
  import opened Sink
  import opened Line
  import opened LineFacts
  import opened Scan

  /** The first column of a row from column x to column x + (w - 1). */
  function Lo(x: int, w: int): int
  {
    if w >= 1 then x else x + (w - 1)
  }

  /** The number of columns from x to x + (w - 1), in whichever order those come. */
  function Width(w: int): nat
  {
    if w >= 1 then w else 2 - w
  }

  function Anywhere(): Point -> bool
  {
    p => true
  }

  /** The pixels __paint_rectangle sends to __paint_pixel: rows y .. y + h - 1
      from top to bottom, each the line from column x to column x + (w - 1),
      which __paint_line walks from its left end. The source assumes w and h
      positive; h <= 0 paints nothing, and w <= 0 still paints one line per
      row, from x + (w - 1) up to x. */
  function RectPoints(x: int, y: int, w: int, h: int): seq<Point>
  {
    BoxPoints(Anywhere(), Lo(x, w), Width(w), y, if h > 0 then h else 0)
  }

  /** __paint_rectangle: the callbacks it makes are those of RectPoints. */
  method PaintRectangle(d: Device, x: int, y: int, w: int, h: int, color: Color)
    returns (out: seq<Write>)
    ensures out == Emit(d, RectPoints(x, y, w, h), color)
  {
    var y0 := y;
    ghost var n: nat := 0;
    ghost var rows: nat := if h > 0 then h else 0;
    ghost var lo, cols := Lo(x, w), Width(w);
    out := [];
    while y0 < y + h
      invariant y0 == y + n && n <= rows
      invariant out == BoxWrites(d, Anywhere(), lo, cols, y, n, color)
      decreases y + h - y0
    {
      var row := PaintRow(d, x, w, y0, color);
      BoxWritesStep(d, Anywhere(), Lo(x, w), Width(w), y, n, y0, color);
      out := out + row;
      y0 := y0 + 1;
      n := n + 1;
    }
    assert n == rows;
  }

  /** The loop body of __paint_rectangle: the line along row y. */
  method PaintRow(d: Device, x: int, w: int, y: int, color: Color) returns (row: seq<Write>)
    ensures row == RowWrites(d, Anywhere(), Lo(x, w), Width(w), y, color)
  {
    row := PaintLine(d, x, y, x + (w - 1), y, color);
    RowLine(d, x, w, y, color);
  }

  /** The line __paint_rectangle paints for row y makes the callbacks of the row scan. */
  lemma RowLine(d: Device, x: int, w: int, y: int, c: Color)
    ensures Emit(d, LinePoints(x, y, x + (w - 1), y, d.cursor), c) == RowWrites(d, Anywhere(), Lo(x, w), Width(w), y, c)
  {
    HorizontalRun(x, x + (w - 1), y, d.cursor);
    RowIsScan(Lo(x, w), Width(w), y);
    RowWritesEmit(d, Anywhere(), Lo(x, w), Width(w), y, c);
  }

  /** A run is the row scan that keeps every column. */
  lemma {:induction false} RowIsScan(x: int, n: nat, y: int)
    ensures HRun(x, x + (n - 1), y) == RowPoints(Anywhere(), x, n, y)
  {
    if n > 0 {
      RowIsScan(x, n - 1, y);
    }
  }

  /** Columns between x and x + (w - 1), in whichever order those come. */
  predicate InColumns(x: int, w: int, px: int)
  {
    if w >= 1 then x <= px <= x + (w - 1) else x + (w - 1) <= px <= x
  }

  /** A pixel is painted exactly when it lies on one of the h rows from y and
      between columns x and x + (w - 1). */
  lemma RectMember(x: int, y: int, w: int, h: int, p: Point)
    ensures p in RectPoints(x, y, w, h) <==> y <= p.y < y + h && InColumns(x, w, p.x)
  {
    BoxPointsMember(Anywhere(), Lo(x, w), Width(w), y, if h > 0 then h else 0, p);
  }

  /** The rows are painted top to bottom, each left to right, so no pixel is
      painted twice, and a rectangle of positive width holds w * h of them. */
  lemma RectOrdered(x: int, y: int, w: int, h: int)
    ensures RowMajor(RectPoints(x, y, w, h))
    ensures |RectPoints(x, y, w, h)| == (if h > 0 then Width(w) * h else 0)
  {
    BoxPointsOrdered(Anywhere(), Lo(x, w), Width(w), y, if h > 0 then h else 0);
    BoxPointsCount(Lo(x, w), Width(w), y, if h > 0 then h else 0);
  }

  /** A box scan that keeps every pixel holds n pixels per row. */
  lemma {:induction false} BoxPointsCount(x0: int, n: nat, y0: int, m: nat)
    ensures |BoxPoints(Anywhere(), x0, n, y0, m)| == n * m
  {
    if m > 0 {
      BoxPointsCount(x0, n, y0, m - 1);
      RowIsScan(x0, n, y0 + m - 1);
      HRunPixels(x0, x0 + (n - 1), y0 + m - 1);
      assert n * m == n * (m - 1) + n;
    }
  }

  // ---------------------------------------------------------------------
  // gfx_fill_rectangle and gfx_draw_rectangle: w and h count pixels from the
  // cursor, rightwards and downwards when positive, leftwards and upwards when
  // negative.

  /** The |n| coordinates from c in the direction of n's sign, c included. */
  predicate Covers(c: int, n: int, v: int)
  {
    if n > 0 then c <= v < c + n else c + n < v <= c
  }

  /** The first column or row and the pixel count of a side, as gfx_fill_rectangle derives them. */
  function FirstOf(c: int, n: int): int
  {
    if n < 0 then c + n + 1 else c
  }

  /** The pixels gfx_fill_rectangle paints from the cursor: nothing when w * h
      is zero, otherwise the rectangle whose corner is the cursor. */
  function FilledRectPoints(cur: Point, w: int, h: int): seq<Point>
  {
    if w * h == 0 then [] else RectPoints(FirstOf(cur.x, w), FirstOf(cur.y, h), Abs(w), Abs(h))
  }

  /** gfx_fill_rectangle */
  method FillRectangle(d: Device, w: int, h: int, color: Color) returns (out: seq<Write>)
    ensures out == Emit(d, FilledRectPoints(d.cursor, w, h), color)
  {
    if w * h == 0 {
      return [];
    }
    var x0, y0, w', h' := d.cursor.x, d.cursor.y, w, h;
    if w < 0 {
      x0 := d.cursor.x + w + 1;
      w' := -w;
    }
    if h < 0 {
      y0 := d.cursor.y + h + 1;
      h' := -h;
    }
    out := PaintRectangle(d, x0, y0, w', h', color);
  }

  /** A filled rectangle paints exactly the pixels whose column and row are
      both covered from the cursor, each once, row by row and left to right,
      |w * h| of them. */
  lemma FilledRectMember(cur: Point, w: int, h: int, p: Point)
    ensures p in FilledRectPoints(cur, w, h) <==> Covers(cur.x, w, p.x) && Covers(cur.y, h, p.y)
    ensures RowMajor(FilledRectPoints(cur, w, h))
    ensures |FilledRectPoints(cur, w, h)| == Abs(w * h)
  {
    if w * h != 0 {
      RectMember(FirstOf(cur.x, w), FirstOf(cur.y, h), Abs(w), Abs(h), p);
      RectOrdered(FirstOf(cur.x, w), FirstOf(cur.y, h), Abs(w), Abs(h));
      assert Abs(w) * Abs(h) == Abs(w * h) by {
        if w < 0 && h < 0 { assert (-w) * (-h) == w * h; }
        else if w < 0 { assert (-w) * h == -(w * h); }
        else if h < 0 { assert w * (-h) == -(w * h); }
      }
    } else {
      assert w == 0 || h == 0;
    }
  }

  /** The last column or row of a side, as gfx_draw_rectangle derives them. */
  function LastOf(c: int, n: int): int
  {
    if n < 0 then c else c + (n - 1)
  }

  /** The pixels gfx_draw_rectangle paints from the cursor: nothing when w * h
      is zero, otherwise the top, right, bottom and left sides in that order,
      each walked from its left or upper end. */
  function OutlinePoints(cur: Point, w: int, h: int): seq<Point>
  {
    if w * h == 0 then []
    else
      var x0, x1, y0, y1 := FirstOf(cur.x, w), LastOf(cur.x, w), FirstOf(cur.y, h), LastOf(cur.y, h);
      HRun(x0, x1, y0) + VRun(x1, y0, y1) + HRun(x0, x1, y1) + VRun(x0, y0, y1)
  }

  /** gfx_draw_rectangle */
  method DrawRectangle(d: Device, w: int, h: int, color: Color) returns (out: seq<Write>)
    ensures out == Emit(d, OutlinePoints(d.cursor, w, h), color)
  {
    if w * h == 0 {
      return [];
    }
    var x0, y0, x1, y1;
    if w < 0 {
      x0, x1 := d.cursor.x + w + 1, d.cursor.x;
    } else {
      x0, x1 := d.cursor.x, d.cursor.x + (w - 1);
    }
    if h < 0 {
      y0, y1 := d.cursor.y + h + 1, d.cursor.y;
    } else {
      y0, y1 := d.cursor.y, d.cursor.y + (h - 1);
    }
    var top := PaintLine(d, x0, y0, x1, y0, color);
    var right := PaintLine(d, x1, y0, x1, y1, color);
    var bottom := PaintLine(d, x1, y1, x0, y1, color);
    var left := PaintLine(d, x0, y1, x0, y0, color);
    out := top + right + bottom + left;
    OutlineEmit(d, w, h, x0, x1, y0, y1, color);
  }

  /** The four lines of gfx_draw_rectangle, whose corners (x0, y0) and (x1, y1)
      are the first and last columns and rows, make the callbacks of OutlinePoints. */
  lemma OutlineEmit(d: Device, w: int, h: int, x0: int, x1: int, y0: int, y1: int, c: Color)
    requires w * h != 0
    requires x0 == FirstOf(d.cursor.x, w) && x1 == LastOf(d.cursor.x, w)
    requires y0 == FirstOf(d.cursor.y, h) && y1 == LastOf(d.cursor.y, h)
    ensures Emit(d, OutlinePoints(d.cursor, w, h), c) ==
              Emit(d, LinePoints(x0, y0, x1, y0, d.cursor), c) + Emit(d, LinePoints(x1, y0, x1, y1, d.cursor), c) +
              Emit(d, LinePoints(x1, y1, x0, y1, d.cursor), c) + Emit(d, LinePoints(x0, y1, x0, y0, d.cursor), c)
  {
    var a, b, e, f := HRun(x0, x1, y0), VRun(x1, y0, y1), HRun(x0, x1, y1), VRun(x0, y0, y1);
    assert OutlinePoints(d.cursor, w, h) == a + b + e + f;
    assert w != 0 && h != 0;
    assert x0 <= x1 && y0 <= y1;
    HorizontalRun(x0, x1, y0, d.cursor);
    VerticalRun(x1, y0, y1, d.cursor);
    HorizontalRun(x1, x0, y1, d.cursor);
    VerticalRun(x0, y1, y0, d.cursor);
    assert LinePoints(x0, y0, x1, y0, d.cursor) == a && LinePoints(x1, y0, x1, y1, d.cursor) == b;
    assert LinePoints(x1, y1, x0, y1, d.cursor) == e && LinePoints(x0, y1, x0, y0, d.cursor) == f;
    EmitFour(d, a, b, e, f, c);
  }

  /** p is covered from the cursor in both directions. */
  predicate InRect(cur: Point, w: int, h: int, p: Point)
  {
    Covers(cur.x, w, p.x) && Covers(cur.y, h, p.y)
  }

  /** The outline is the border of the filled rectangle: exactly the pixels of
      the rectangle that have a horizontal or vertical neighbour outside it. */
  lemma OutlineMember(cur: Point, w: int, h: int, p: Point)
    ensures p in OutlinePoints(cur, w, h) <==>
              InRect(cur, w, h, p) &&
              (!InRect(cur, w, h, Point(p.x - 1, p.y)) || !InRect(cur, w, h, Point(p.x + 1, p.y)) ||
               !InRect(cur, w, h, Point(p.x, p.y - 1)) || !InRect(cur, w, h, Point(p.x, p.y + 1)))
  {
    if w * h != 0 {
      var x0, x1, y0, y1 := FirstOf(cur.x, w), LastOf(cur.x, w), FirstOf(cur.y, h), LastOf(cur.y, h);
      var a, b, e, f := HRun(x0, x1, y0), VRun(x1, y0, y1), HRun(x0, x1, y1), VRun(x0, y0, y1);
      HRunMember(x0, x1, y0, p);
      VRunMember(x1, y0, y1, p);
      HRunMember(x0, x1, y1, p);
      VRunMember(x0, y0, y1, p);
      InAppend(a + b + e, f, p);
      InAppend(a + b, e, p);
      InAppend(a, b, p);
    } else {
      assert w == 0 || h == 0;
    }
  }

  /** Every pixel of an outline is painted by the filled rectangle of the same size. */
  lemma OutlineInFill(cur: Point, w: int, h: int, p: Point)
    requires p in OutlinePoints(cur, w, h)
    ensures p in FilledRectPoints(cur, w, h)
  {
    OutlineMember(cur, w, h, p);
    FilledRectMember(cur, w, h, p);
  }

  /** The pixels gfx_fill_screen paints: the whole display as one rectangle
      from (0, 0), under an identity transform. */
  function ScreenPoints(d: Device): seq<Point>
  {
    RectPoints(0, 0, d.w, d.h)
  }

  /** gfx_fill_screen */
  method FillScreen(d: Device, color: Color) returns (out: seq<Write>)
    ensures out == Emit(d, ScreenPoints(d), color)
  {
    out := PaintRectangle(d, 0, 0, d.w, d.h, color);
  }

  /** Filling the screen makes one callback for every pixel of the display,
      each in the fill colour, and no other: w * h callbacks in all. */
  lemma FillScreenCovers(d: Device, c: Color, q: Write)
    ensures |Emit(d, ScreenPoints(d), c)| == (if d.w > 0 && d.h > 0 then d.w * d.h else 0)
    ensures q in Emit(d, ScreenPoints(d), c) <==> 0 <= q.x < d.w && 0 <= q.y < d.h && q.color == c
  {
    var pts := ScreenPoints(d);
    ScreenPixels(d);
    EmitMember(d, pts, c, q);
    if d.w > 0 {
      RectOrdered(0, 0, d.w, d.h);
      EmitAllOnScreen(d, pts, c);
      if 0 <= q.x < d.w && 0 <= q.y < d.h && q.color == c {
        ScreenHas(d, c, q);
      }
    } else {
      EmitNoneOnScreen(d, pts, c);
    }
  }

  /** The screen's pixels are all on screen, unless the width is not positive,
      when none of them is. */
  lemma ScreenPixels(d: Device)
    ensures forall i :: 0 <= i < |ScreenPoints(d)| ==> (OnScreen(d, ScreenPoints(d)[i]) <==> d.w > 0)
  {
    var pts := ScreenPoints(d);
    forall i | 0 <= i < |pts| ensures (OnScreen(d, pts[i]) <==> d.w > 0) {
      RectMember(0, 0, d.w, d.h, pts[i]);
    }
  }

  /** Every pixel of the display is written by a screen fill. */
  lemma ScreenHas(d: Device, c: Color, q: Write)
    requires 0 <= q.x < d.w && 0 <= q.y < d.h && q.color == c
    ensures q in Emit(d, ScreenPoints(d), c)
  {
    var pts := ScreenPoints(d);
    var p := Point(DeviceX(d, q.x), q.y);
    RectMember(0, 0, d.w, d.h, p);
    var i :| 0 <= i < |pts| && pts[i] == p;
    assert OnScreen(d, pts[i]) && q == Write(DeviceX(d, pts[i].x), pts[i].y, c);
    EmitMember(d, pts, c, q);
  }
}
