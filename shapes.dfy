// The shape calls of lib/src/gfx.c that place a circle or a triangle at the
// drawing cursor, which they do not move.

module Shapes {
  import opened GfxHeader
  import opened Arith
  import opened Sink
  import opened Line
  import opened LineFacts
  import opened Scan
  import opened Quadrant
  import opened Triangle

  // ---------------------------------------------------------------------
  // gfx_draw_circle and gfx_fill_circle

  /** The pixels of a circle of radius r about the cursor: nothing unless r is
      positive, otherwise all four corners of __paint_quadrant. */
  function CirclePoints(cur: Point, r: int, fill: bool): seq<Point>
  {
    if r <= 0 then [] else QuadrantPoints(cur.x, cur.y, r, 0xf, fill)
  }

  /** gfx_draw_circle */
  method DrawCircle(d: Device, r: int, color: Color) returns (out: seq<Write>)
    ensures out == Emit(d, CirclePoints(d.cursor, r, false), color)
  {
    if r <= 0 {
      return [];
    }
    out := PaintQuadrant(d, d.cursor.x, d.cursor.y, r, 0xf, false, color);
  }

  /** gfx_fill_circle */
  method FillCircle(d: Device, r: int, color: Color) returns (out: seq<Write>)
    ensures out == Emit(d, CirclePoints(d.cursor, r, true), color)
  {
    if r <= 0 {
      return [];
    }
    out := PaintQuadrant(d, d.cursor.x, d.cursor.y, r, 0xf, true, color);
  }

  /** A circle lies within squared distance r^2 + 1 of the cursor, an outline
      less than one pixel per axis from that rim; it is symmetric about both
      axes through the cursor, and an outline also about the diagonal. */
  lemma CircleShape(cur: Point, r: int, fill: bool, p: Point)
    requires p in CirclePoints(cur, r, fill)
    ensures r >= 1
    ensures InDisc(p.x - cur.x, p.y - cur.y, r * r + 1)
    ensures !fill ==> NearRim(p.x - cur.x, p.y - cur.y, r * r + 1)
    ensures Point(2 * cur.x - p.x, p.y) in CirclePoints(cur, r, fill)
    ensures Point(p.x, 2 * cur.y - p.y) in CirclePoints(cur, r, fill)
    ensures !fill ==> Point(cur.x + (p.y - cur.y), cur.y + (p.x - cur.x)) in CirclePoints(cur, r, fill)
  {
    QuadrantInDisc(cur.x, cur.y, r, 0xf, fill, p);
    CircleSymmetric(cur.x, cur.y, r, fill, p);
  }

  /** The four pixels r away from the cursor along the axes are painted. */
  lemma CircleReachesRadius(cur: Point, r: int, fill: bool)
    requires r >= 1
    ensures Point(cur.x + r, cur.y) in CirclePoints(cur, r, fill)
    ensures Point(cur.x, cur.y + r) in CirclePoints(cur, r, fill)
    ensures Point(cur.x - r, cur.y) in CirclePoints(cur, r, fill)
    ensures Point(cur.x, cur.y - r) in CirclePoints(cur, r, fill)
  {
    assert Visit(r, 0) == Arc(r, 0, 0);
    CirclePaints(cur.x, cur.y, r, fill, 0, SouthEast, Point(cur.x + r, cur.y));
    CirclePaints(cur.x, cur.y, r, fill, 0, SouthEast, Point(cur.x, cur.y + r));
    CirclePaints(cur.x, cur.y, r, fill, 0, NorthWest, Point(cur.x - r, cur.y));
    CirclePaints(cur.x, cur.y, r, fill, 0, NorthWest, Point(cur.x, cur.y - r));
  }

  /** Every pixel of a drawn circle is painted by the filled circle of the same radius. */
  lemma CircleOutlineInFill(cur: Point, r: int, p: Point)
    requires p in CirclePoints(cur, r, false)
    ensures p in CirclePoints(cur, r, true)
  {
    QuadrantOutlineInFill(cur.x, cur.y, r, 0xf, p);
  }

  // ---------------------------------------------------------------------
  // gfx_draw_triangle and gfx_fill_triangle: the first corner is the cursor,
  // the other two are offsets from it.

  function Offset(cur: Point, x: int, y: int): Point
  {
    Point(cur.x + x, cur.y + y)
  }

  /** The pixels gfx_draw_triangle paints: the lines from the cursor to each
      offset corner, then the line between those corners. */
  function TriangleOutline(cur: Point, x0: int, y0: int, x1: int, y1: int): seq<Point>
  {
    var a, b := Offset(cur, x0, y0), Offset(cur, x1, y1);
    LinePoints(cur.x, cur.y, a.x, a.y, cur) + LinePoints(cur.x, cur.y, b.x, b.y, cur) + LinePoints(a.x, a.y, b.x, b.y, cur)
  }

  /** gfx_draw_triangle */
  method DrawTriangle(d: Device, x0: int, y0: int, x1: int, y1: int, color: Color) returns (out: seq<Write>)
    ensures out == Emit(d, TriangleOutline(d.cursor, x0, y0, x1, y1), color)
  {
    var c, a, b := d.cursor, Offset(d.cursor, x0, y0), Offset(d.cursor, x1, y1);
    var e1 := PaintLine(d, c.x, c.y, a.x, a.y, color);
    var e2 := PaintLine(d, c.x, c.y, b.x, b.y, color);
    var e3 := PaintLine(d, a.x, a.y, b.x, b.y, color);
    out := e1 + e2 + e3;
    ghost var l1, l2, l3 := LinePoints(c.x, c.y, a.x, a.y, c), LinePoints(c.x, c.y, b.x, b.y, c), LinePoints(a.x, a.y, b.x, b.y, c);
    EmitAppend(d, l1 + l2, l3, color);
    EmitAppend(d, l1, l2, color);
  }

  /** The three corners are painted. */
  lemma OutlineCorners(cur: Point, x0: int, y0: int, x1: int, y1: int)
    ensures cur in TriangleOutline(cur, x0, y0, x1, y1)
    ensures Offset(cur, x0, y0) in TriangleOutline(cur, x0, y0, x1, y1)
    ensures Offset(cur, x1, y1) in TriangleOutline(cur, x0, y0, x1, y1)
  {
    var a, b := Offset(cur, x0, y0), Offset(cur, x1, y1);
    var e1, e2, e3 := LinePoints(cur.x, cur.y, a.x, a.y, cur), LinePoints(cur.x, cur.y, b.x, b.y, cur), LinePoints(a.x, a.y, b.x, b.y, cur);
    LineHasEnds(cur.x, cur.y, a.x, a.y, cur);
    LineHasEnds(a.x, a.y, b.x, b.y, cur);
    assert Point(cur.x, cur.y) == cur;
    InAppend(e1 + e2, e3, cur);
    InAppend(e1 + e2, e3, a);
    InAppend(e1 + e2, e3, b);
    InAppend(e1, e2, cur);
    InAppend(e1, e2, a);
  }

  /** Giving the two offset corners in the other order paints the same pixels. */
  lemma OutlineSwap(cur: Point, x0: int, y0: int, x1: int, y1: int, p: Point)
    ensures p in TriangleOutline(cur, x0, y0, x1, y1) <==> p in TriangleOutline(cur, x1, y1, x0, y0)
  {
    var a, b := Offset(cur, x0, y0), Offset(cur, x1, y1);
    var e1, e2, e3 := LinePoints(cur.x, cur.y, a.x, a.y, cur), LinePoints(cur.x, cur.y, b.x, b.y, cur), LinePoints(a.x, a.y, b.x, b.y, cur);
    LineSymmetric(a.x, a.y, b.x, b.y, cur);
    InAppend(e1 + e2, e3, p);
    InAppend(e2 + e1, e3, p);
    InAppend(e1, e2, p);
    InAppend(e2, e1, p);
  }

  /** The pixels gfx_fill_triangle paints: __paint_triangle on the cursor and the offset corners. */
  function FilledTrianglePoints(cur: Point, x0: int, y0: int, x1: int, y1: int): seq<Point>
  {
    TrianglePoints(Tri(cur, Offset(cur, x0, y0), Offset(cur, x1, y1)), cur)
  }

  /** gfx_fill_triangle */
  method FillTriangle(d: Device, x0: int, y0: int, x1: int, y1: int, color: Color) returns (out: seq<Write>)
    ensures out == Emit(d, FilledTrianglePoints(d.cursor, x0, y0, x1, y1), color)
  {
    var a, b := Offset(d.cursor, x0, y0), Offset(d.cursor, x1, y1);
    out := PaintTriangle(d, d.cursor.x, d.cursor.y, a.x, a.y, b.x, b.y, color);
  }

  /** When the offsets are not parallel, a filled triangle paints exactly the
      lattice points of the closed triangle, each once, row by row; the order
      of the offset corners does not change the pixels or their order. */
  lemma FilledTriangleMember(cur: Point, x0: int, y0: int, x1: int, y1: int, p: Point)
    requires x0 * y1 - y0 * x1 != 0
    ensures p in FilledTrianglePoints(cur, x0, y0, x1, y1) <==> InTriangle(Tri(cur, Offset(cur, x0, y0), Offset(cur, x1, y1)), p)
    ensures RowMajor(FilledTrianglePoints(cur, x0, y0, x1, y1))
    ensures FilledTrianglePoints(cur, x1, y1, x0, y0) == FilledTrianglePoints(cur, x0, y0, x1, y1)
  {
    var t := Tri(cur, Offset(cur, x0, y0), Offset(cur, x1, y1));
    assert Cross(t) == x0 * y1 - y0 * x1;
    TriangleMember(t, cur, p);
    TriangleOrdered(t, cur);
    TriangleSwap(t, cur);
  }
}
