// gfx_draw_rounded_rectangle and gfx_fill_rounded_rectangle (lib/src/gfx.c):
// a box from the drawing cursor with quarter-circle corners.

module Rounded {
  import opened GfxHeader
  import opened Arith
  import opened Sink
  import opened Line
  import opened LineFacts
  import opened Scan
  import opened Quadrant
  import opened Triangle

  /** The error check both calls start with, on C's integer division. */
  predicate RoundedRejected(w: int, h: int, r: int)
  {
    r > CDiv(w, 2) || r > CDiv(h, 2) || (h - 2 * r == 0 && w - 2 * r == 0) || r <= 0
  }

  /** The check accepts exactly a positive radius that fits twice into both
      sides, unless it fits exactly into both (a circle). */
  lemma RoundedGuard(w: int, h: int, r: int)
    ensures !RoundedRejected(w, h, r) <==> 1 <= r && 2 * r <= w && 2 * r <= h && !(w == 2 * r && h == 2 * r)
  {
  }

  /** The corner pixels: the top left, top right, bottom left and bottom right
      quadrants of radius r, centred r pixels in from the box's sides. */
  function RoundedCorners(cur: Point, w: int, h: int, r: int, fill: bool): seq<Point>
  {
    var p, q := Point(cur.x + r, cur.y + r), Point(cur.x + (w - r - 1), cur.y + (h - r - 1));
    QuadrantPoints(p.x, p.y, r, 4, fill) + QuadrantPoints(q.x, p.y, r, 8, fill) +
    QuadrantPoints(p.x, q.y, r, 2, fill) + QuadrantPoints(q.x, q.y, r, 1, fill)
  }

  lemma RoundedCornersAt(cur: Point, w: int, h: int, r: int, fill: bool, p: Point, q: Point)
    requires p == Point(cur.x + r, cur.y + r) && q == Point(cur.x + (w - r - 1), cur.y + (h - r - 1))
    ensures RoundedCorners(cur, w, h, r, fill) == QuadrantPoints(p.x, p.y, r, 4, fill) + QuadrantPoints(q.x, p.y, r, 8, fill) +
                                                  QuadrantPoints(p.x, q.y, r, 2, fill) + QuadrantPoints(q.x, q.y, r, 1, fill)
  {
  }

  /** The four __paint_quadrant calls the two rounded-rectangle calls share. */
  method PaintCorners(d: Device, w: int, h: int, r: int, fill: bool, color: Color) returns (out: seq<Write>)
    ensures out == Emit(d, RoundedCorners(d.cursor, w, h, r, fill), color)
  {
    var p, q := Point(d.cursor.x + r, d.cursor.y + r), Point(d.cursor.x + (w - r - 1), d.cursor.y + (h - r - 1));
    RoundedCornersAt(d.cursor, w, h, r, fill, p, q);
    var tl := PaintQuadrant(d, p.x, p.y, r, 4, fill, color);
    var tr := PaintQuadrant(d, q.x, p.y, r, 8, fill, color);
    var bl := PaintQuadrant(d, p.x, q.y, r, 2, fill, color);
    var br := PaintQuadrant(d, q.x, q.y, r, 1, fill, color);
    out := tl + tr + bl + br;
    EmitFour(d, QuadrantPoints(p.x, p.y, r, 4, fill), QuadrantPoints(q.x, p.y, r, 8, fill),
             QuadrantPoints(p.x, q.y, r, 2, fill), QuadrantPoints(q.x, q.y, r, 1, fill), color);
  }

  /** The straight sides of the outline: top, left, right and bottom, each
      from r + 1 pixels past one corner to r + 2 pixels before the other. */
  function RoundedSides(cur: Point, w: int, h: int, r: int): seq<Point>
  {
    var lo, hi, far := Point(cur.x + r + 1, cur.y + r + 1), Point(cur.x + (w - r - 2), cur.y + (h - r - 2)), Point(cur.x + w - 1, cur.y + h - 1);
    LinePoints(lo.x, cur.y, hi.x, cur.y, cur) + LinePoints(cur.x, lo.y, cur.x, hi.y, cur) +
    LinePoints(far.x, lo.y, far.x, hi.y, cur) + LinePoints(lo.x, far.y, hi.x, far.y, cur)
  }

  lemma RoundedSidesAt(cur: Point, w: int, h: int, r: int, lo: Point, hi: Point, far: Point)
    requires lo == Point(cur.x + r + 1, cur.y + r + 1) && hi == Point(cur.x + (w - r - 2), cur.y + (h - r - 2))
    requires far == Point(cur.x + w - 1, cur.y + h - 1)
    ensures RoundedSides(cur, w, h, r) == LinePoints(lo.x, cur.y, hi.x, cur.y, cur) + LinePoints(cur.x, lo.y, cur.x, hi.y, cur) +
                                          LinePoints(far.x, lo.y, far.x, hi.y, cur) + LinePoints(lo.x, far.y, hi.x, far.y, cur)
  {
  }

  /** The pixels gfx_draw_rounded_rectangle paints. */
  function RoundedOutlinePoints(cur: Point, w: int, h: int, r: int): seq<Point>
  {
    if RoundedRejected(w, h, r) then [] else RoundedCorners(cur, w, h, r, false) + RoundedSides(cur, w, h, r)
  }

  /** gfx_draw_rounded_rectangle */
  method DrawRoundedRectangle(d: Device, w: int, h: int, r: int, color: Color) returns (out: seq<Write>)
    ensures out == Emit(d, RoundedOutlinePoints(d.cursor, w, h, r), color)
  {
    if (r > CDiv(w, 2)) || (r > CDiv(h, 2)) || ((h - 2 * r == 0) && (w - 2 * r == 0)) || (r <= 0) {
      return [];
    }
    var corners := PaintCorners(d, w, h, r, false, color);
    // the sides run between the columns lo.x and hi.x and the rows lo.y and hi.y
    var lo, hi, far := Point(d.cursor.x + r + 1, d.cursor.y + r + 1), Point(d.cursor.x + (w - r - 2), d.cursor.y + (h - r - 2)), Point(d.cursor.x + w - 1, d.cursor.y + h - 1);
    var top := PaintLine(d, lo.x, d.cursor.y, hi.x, d.cursor.y, color);
    var left := PaintLine(d, d.cursor.x, lo.y, d.cursor.x, hi.y, color);
    var right := PaintLine(d, far.x, lo.y, far.x, hi.y, color);
    var bottom := PaintLine(d, lo.x, far.y, hi.x, far.y, color);
    out := corners + (top + left + right + bottom);
    ghost var sides := LinePoints(lo.x, d.cursor.y, hi.x, d.cursor.y, d.cursor) + LinePoints(d.cursor.x, lo.y, d.cursor.x, hi.y, d.cursor) +
                       LinePoints(far.x, lo.y, far.x, hi.y, d.cursor) + LinePoints(lo.x, far.y, hi.x, far.y, d.cursor);
    RoundedSidesAt(d.cursor, w, h, r, lo, hi, far);
    EmitFour(d, LinePoints(lo.x, d.cursor.y, hi.x, d.cursor.y, d.cursor), LinePoints(d.cursor.x, lo.y, d.cursor.x, hi.y, d.cursor),
             LinePoints(far.x, lo.y, far.x, hi.y, d.cursor), LinePoints(lo.x, far.y, hi.x, far.y, d.cursor), color);
    EmitAppend(d, RoundedCorners(d.cursor, w, h, r, false), sides, color);
  }

  /** The two side strips, between the left corners and between the right corners. */
  function SideStrips(cur: Point, w: int, h: int, r: int): seq<Point>
  {
    LeftStrip(cur, h, r) + RightStrip(cur, w, h, r)
  }

  function LeftStrip(cur: Point, h: int, r: int): seq<Point>
  {
    var lo, hi := Point(cur.x, cur.y + r), Point(cur.x + r, cur.y + (h - r - 1));
    Halves(lo, hi, cur)
  }

  function RightStrip(cur: Point, w: int, h: int, r: int): seq<Point>
  {
    var lo, hi := Point(cur.x + (w - r - 1), cur.y + r), Point(cur.x + (w - 1), cur.y + (h - r - 1));
    Halves(lo, hi, cur)
  }

  /** The middle strip, between the top and the bottom corners. */
  function MiddleStrip(cur: Point, w: int, h: int, r: int): seq<Point>
  {
    var lo, hi := Point(cur.x + r + 1, cur.y), Point(cur.x + (w - r - 2), cur.y + (h - 1));
    Halves(lo, hi, cur)
  }

  /** The pixels gfx_fill_rounded_rectangle paints: the filled corners, then
      the side strips if the corners leave room between them vertically, then
      the middle strip if they leave room horizontally. */
  function RoundedFillPoints(cur: Point, w: int, h: int, r: int): seq<Point>
  {
    if RoundedRejected(w, h, r) then []
    else
      var corners := RoundedCorners(cur, w, h, r, true);
      var upToSides := if h - 2 * r > 0 then corners + SideStrips(cur, w, h, r) else corners;
      if w - 2 * r > 0 then upToSides + MiddleStrip(cur, w, h, r) else upToSides
  }

  /** gfx_fill_rounded_rectangle */
  method FillRoundedRectangle(d: Device, w: int, h: int, r: int, color: Color) returns (out: seq<Write>)
    ensures out == Emit(d, RoundedFillPoints(d.cursor, w, h, r), color)
  {
    if (r > CDiv(w, 2)) || (r > CDiv(h, 2)) || ((h - 2 * r == 0) && (w - 2 * r == 0)) || (r <= 0) {
      return [];
    }
    out := PaintCorners(d, w, h, r, true, color);
    ghost var pts := RoundedCorners(d.cursor, w, h, r, true);
    if (h - 2 * r) > 0 {
      var s := PaintSideStrips(d, w, h, r, color);
      EmitAppend(d, pts, SideStrips(d.cursor, w, h, r), color);
      out, pts := out + s, pts + SideStrips(d.cursor, w, h, r);
    }
    if (w - 2 * r) > 0 {
      var m := PaintMiddleStrip(d, w, h, r, color);
      EmitAppend(d, pts, MiddleStrip(d.cursor, w, h, r), color);
      out, pts := out + m, pts + MiddleStrip(d.cursor, w, h, r);
    }
  }

  /** The four __paint_triangle calls under `(h - 2 * r) > 0`. */
  method PaintSideStrips(d: Device, w: int, h: int, r: int, color: Color) returns (out: seq<Write>)
    ensures out == Emit(d, SideStrips(d.cursor, w, h, r), color)
  {
    var lo, hi := Point(d.cursor.x, d.cursor.y + r), Point(d.cursor.x + r, d.cursor.y + (h - r - 1));
    var left := PaintHalves(d, lo, hi, color);
    lo, hi := Point(d.cursor.x + (w - r - 1), d.cursor.y + r), Point(d.cursor.x + (w - 1), d.cursor.y + (h - r - 1));
    var right := PaintHalves(d, lo, hi, color);
    out := left + right;
    EmitAppend(d, LeftStrip(d.cursor, h, r), RightStrip(d.cursor, w, h, r), color);
  }

  /** The two __paint_triangle calls under `(w - 2 * r) > 0`. */
  method PaintMiddleStrip(d: Device, w: int, h: int, r: int, color: Color) returns (out: seq<Write>)
    ensures out == Emit(d, MiddleStrip(d.cursor, w, h, r), color)
  {
    var lo, hi := Point(d.cursor.x + r + 1, d.cursor.y), Point(d.cursor.x + (w - r - 2), d.cursor.y + (h - 1));
    out := PaintHalves(d, lo, hi, color);
    MiddleStripAt(d.cursor, w, h, r, lo, hi);
  }

  lemma MiddleStripAt(cur: Point, w: int, h: int, r: int, lo: Point, hi: Point)
    requires lo == Point(cur.x + r + 1, cur.y) && hi == Point(cur.x + (w - r - 2), cur.y + (h - 1))
    ensures MiddleStrip(cur, w, h, r) == Halves(lo, hi, cur)
  {
  }

  // ---------------------------------------------------------------------
  // What the painted pixels amount to

  /** The pixel lies in the w by h box whose top left corner is the cursor. */
  predicate InBox(cur: Point, w: int, h: int, p: Point)
  {
    cur.x <= p.x < cur.x + w && cur.y <= p.y < cur.y + h
  }

  /** Each corner pixel lies in its own (r + 1) by (r + 1) corner square of the box. */
  lemma CornersInBox(cur: Point, w: int, h: int, r: int, fill: bool, p: Point)
    requires 1 <= r && 2 * r <= w && 2 * r <= h
    requires p in RoundedCorners(cur, w, h, r, fill)
    ensures InBox(cur, w, h, p)
    ensures p.x <= cur.x + r || cur.x + w - r - 1 <= p.x
    ensures p.y <= cur.y + r || cur.y + h - r - 1 <= p.y
  {
    var a, b := Point(cur.x + r, cur.y + r), Point(cur.x + (w - r - 1), cur.y + (h - r - 1));
    RoundedCornersAt(cur, w, h, r, fill, a, b);
    InFour(QuadrantPoints(a.x, a.y, r, 4, fill), QuadrantPoints(b.x, a.y, r, 8, fill),
           QuadrantPoints(a.x, b.y, r, 2, fill), QuadrantPoints(b.x, b.y, r, 1, fill), p);
    if p in QuadrantPoints(a.x, a.y, r, 4, fill) {
      SingleCornerBox(a.x, a.y, r, NorthWest, fill, p);
    } else if p in QuadrantPoints(b.x, a.y, r, 8, fill) {
      SingleCornerBox(b.x, a.y, r, NorthEast, fill, p);
    } else if p in QuadrantPoints(a.x, b.y, r, 2, fill) {
      SingleCornerBox(a.x, b.y, r, SouthWest, fill, p);
    } else {
      SingleCornerBox(b.x, b.y, r, SouthEast, fill, p);
    }
  }

  /** The side pixels: four straight runs between the corners, each possibly
      given back to front. */
  lemma SidesMember(cur: Point, w: int, h: int, r: int, p: Point)
    ensures p in RoundedSides(cur, w, h, r) <==>
              (p.y == cur.y && Between(cur.x + r + 1, cur.x + (w - r - 2), p.x)) ||
              (p.x == cur.x && Between(cur.y + r + 1, cur.y + (h - r - 2), p.y)) ||
              (p.x == cur.x + w - 1 && Between(cur.y + r + 1, cur.y + (h - r - 2), p.y)) ||
              (p.y == cur.y + h - 1 && Between(cur.x + r + 1, cur.x + (w - r - 2), p.x))
  {
    var lo, hi, far := Point(cur.x + r + 1, cur.y + r + 1), Point(cur.x + (w - r - 2), cur.y + (h - r - 2)), Point(cur.x + w - 1, cur.y + h - 1);
    RoundedSidesAt(cur, w, h, r, lo, hi, far);
    InFour(LinePoints(lo.x, cur.y, hi.x, cur.y, cur), LinePoints(cur.x, lo.y, cur.x, hi.y, cur),
           LinePoints(far.x, lo.y, far.x, hi.y, cur), LinePoints(lo.x, far.y, hi.x, far.y, cur), p);
    HorizontalMember(lo.x, hi.x, cur.y, cur, p);
    VerticalMember(cur.x, lo.y, hi.y, cur, p);
    VerticalMember(far.x, lo.y, hi.y, cur, p);
    HorizontalMember(lo.x, hi.x, far.y, cur, p);
  }

  /** The outline pixels are the corner pixels and the side pixels. */
  lemma OutlineMember(cur: Point, w: int, h: int, r: int, p: Point)
    requires !RoundedRejected(w, h, r)
    ensures p in RoundedOutlinePoints(cur, w, h, r) <==> p in RoundedCorners(cur, w, h, r, false) || p in RoundedSides(cur, w, h, r)
  {
    InAppend(RoundedCorners(cur, w, h, r, false), RoundedSides(cur, w, h, r), p);
  }

  /** Unless the radius is 1 and a side is 2 pixels long, the outline stays
      inside the box. */
  lemma RoundedOutlineInBox(cur: Point, w: int, h: int, r: int, p: Point)
    requires !RoundedRejected(w, h, r) && !(r == 1 && (w == 2 || h == 2))
    requires p in RoundedOutlinePoints(cur, w, h, r)
    ensures InBox(cur, w, h, p)
  {
    RoundedGuard(w, h, r);
    OutlineMember(cur, w, h, r, p);
    if p in RoundedCorners(cur, w, h, r, false) {
      CornersInBox(cur, w, h, r, false, p);
    } else {
      SidesMember(cur, w, h, r, p);
    }
  }

  /** With radius 1 and width 2 the check lets a box of any height from 3 on
      through, and the top side then runs from two pixels right of the cursor
      back to one pixel left of it: the outline leaves the box. */
  lemma RoundedOvershoot(cur: Point, h: int)
    requires h >= 3
    ensures !RoundedRejected(2, h, 1)
    ensures Point(cur.x - 1, cur.y) in RoundedOutlinePoints(cur, 2, h, 1)
    ensures !InBox(cur, 2, h, Point(cur.x - 1, cur.y))
  {
    RoundedGuard(2, h, 1);
    OutlineMember(cur, 2, h, 1, Point(cur.x - 1, cur.y));
    SidesMember(cur, 2, h, 1, Point(cur.x - 1, cur.y));
  }

  /** The first step of each corner paints its two rim pixels on the box's sides. */
  lemma RimsPainted(cur: Point, w: int, h: int, r: int)
    requires !RoundedRejected(w, h, r)
    ensures Point(cur.x + r, cur.y) in RoundedCorners(cur, w, h, r, false)
    ensures Point(cur.x + w - r - 1, cur.y) in RoundedCorners(cur, w, h, r, false)
    ensures Point(cur.x, cur.y + r) in RoundedCorners(cur, w, h, r, false)
    ensures Point(cur.x, cur.y + h - r - 1) in RoundedCorners(cur, w, h, r, false)
    ensures Point(cur.x + w - 1, cur.y + r) in RoundedCorners(cur, w, h, r, false)
    ensures Point(cur.x + w - 1, cur.y + h - r - 1) in RoundedCorners(cur, w, h, r, false)
    ensures Point(cur.x + r, cur.y + h - 1) in RoundedCorners(cur, w, h, r, false)
    ensures Point(cur.x + w - r - 1, cur.y + h - 1) in RoundedCorners(cur, w, h, r, false)
  {
    RoundedGuard(w, h, r);
    var a, b := Point(cur.x + r, cur.y + r), Point(cur.x + (w - r - 1), cur.y + (h - r - 1));
    var nw, ne, sw, se := QuadrantPoints(a.x, a.y, r, 4, false), QuadrantPoints(b.x, a.y, r, 8, false),
                          QuadrantPoints(a.x, b.y, r, 2, false), QuadrantPoints(b.x, b.y, r, 1, false);
    RoundedCornersAt(cur, w, h, r, false, a, b);
    RimsAt(cur, w, h, r, a, b);
    QuadrantRimStart(a.x, a.y, r, NorthWest, false);
    QuadrantRimStart(b.x, a.y, r, NorthEast, false);
    QuadrantRimStart(a.x, b.y, r, SouthWest, false);
    QuadrantRimStart(b.x, b.y, r, SouthEast, false);
    InFour(nw, ne, sw, se, Point(cur.x + r, cur.y));
    InFour(nw, ne, sw, se, Point(cur.x + w - r - 1, cur.y));
    InFour(nw, ne, sw, se, Point(cur.x, cur.y + r));
    InFour(nw, ne, sw, se, Point(cur.x, cur.y + h - r - 1));
    InFour(nw, ne, sw, se, Point(cur.x + w - 1, cur.y + r));
    InFour(nw, ne, sw, se, Point(cur.x + w - 1, cur.y + h - r - 1));
    InFour(nw, ne, sw, se, Point(cur.x + r, cur.y + h - 1));
    InFour(nw, ne, sw, se, Point(cur.x + w - r - 1, cur.y + h - 1));
  }

  /** Where the corners' rim pixels at the first step fall on the box. */
  lemma RimsAt(cur: Point, w: int, h: int, r: int, a: Point, b: Point)
    requires a == Point(cur.x + r, cur.y + r) && b == Point(cur.x + (w - r - 1), cur.y + (h - r - 1))
    ensures Rim(a.x, a.y, r, 0, NorthWest) == (Point(cur.x, cur.y + r), Point(cur.x + r, cur.y))
    ensures Rim(b.x, a.y, r, 0, NorthEast) == (Point(cur.x + w - r - 1, cur.y), Point(cur.x + w - 1, cur.y + r))
    ensures Rim(a.x, b.y, r, 0, SouthWest) == (Point(cur.x + r, cur.y + h - 1), Point(cur.x, cur.y + h - r - 1))
    ensures Rim(b.x, b.y, r, 0, SouthEast) == (Point(cur.x + w - 1, cur.y + h - r - 1), Point(cur.x + w - r - 1, cur.y + h - 1))
  {
  }

  /** The outline has no gap: every pixel of the box's sides between the
      corners' rim pixels is painted. */
  lemma RoundedEdgesJoined(cur: Point, w: int, h: int, r: int, x: int, y: int)
    requires !RoundedRejected(w, h, r)
    requires || ((y == cur.y || y == cur.y + h - 1) && cur.x + r <= x <= cur.x + w - r - 1)
             || ((x == cur.x || x == cur.x + w - 1) && cur.y + r <= y <= cur.y + h - r - 1)
    ensures Point(x, y) in RoundedOutlinePoints(cur, w, h, r)
  {
    OutlineMember(cur, w, h, r, Point(x, y));
    if || ((y == cur.y || y == cur.y + h - 1) && (x == cur.x + r || x == cur.x + w - r - 1))
       || ((x == cur.x || x == cur.x + w - 1) && (y == cur.y + r || y == cur.y + h - r - 1)) {
      RimPixel(cur, w, h, r, x, y);
    } else {
      SidesMember(cur, w, h, r, Point(x, y));
    }
  }

  /** A rim pixel of the first step, named by its coordinates. */
  lemma RimPixel(cur: Point, w: int, h: int, r: int, x: int, y: int)
    requires !RoundedRejected(w, h, r)
    requires || ((y == cur.y || y == cur.y + h - 1) && (x == cur.x + r || x == cur.x + w - r - 1))
             || ((x == cur.x || x == cur.x + w - 1) && (y == cur.y + r || y == cur.y + h - r - 1))
    ensures Point(x, y) in RoundedCorners(cur, w, h, r, false)
  {
    RimsPainted(cur, w, h, r);
  }

  /** The side strips cover the rows between the corners, in the r + 1
      columns at each side. */
  lemma SideStripsMember(cur: Point, w: int, h: int, r: int, p: Point)
    ensures p in SideStrips(cur, w, h, r) <==>
              Between(cur.y + r, cur.y + (h - r - 1), p.y) &&
              (Between(cur.x, cur.x + r, p.x) || Between(cur.x + (w - r - 1), cur.x + (w - 1), p.x))
  {
    InAppend(LeftStrip(cur, h, r), RightStrip(cur, w, h, r), p);
    LeftStripMember(cur, h, r, p);
    RightStripMember(cur, w, h, r, p);
  }

  lemma LeftStripMember(cur: Point, h: int, r: int, p: Point)
    ensures p in LeftStrip(cur, h, r) <==> Between(cur.y + r, cur.y + (h - r - 1), p.y) && Between(cur.x, cur.x + r, p.x)
  {
    var lo, hi := Point(cur.x, cur.y + r), Point(cur.x + r, cur.y + (h - r - 1));
    HalvesMember(lo, hi, cur, p);
  }

  lemma RightStripMember(cur: Point, w: int, h: int, r: int, p: Point)
    ensures p in RightStrip(cur, w, h, r) <==> Between(cur.y + r, cur.y + (h - r - 1), p.y) && Between(cur.x + (w - r - 1), cur.x + (w - 1), p.x)
  {
    var lo, hi := Point(cur.x + (w - r - 1), cur.y + r), Point(cur.x + (w - 1), cur.y + (h - r - 1));
    HalvesMember(lo, hi, cur, p);
  }

  /** The middle strip covers the columns between the corners, over the whole height. */
  lemma MiddleStripMember(cur: Point, w: int, h: int, r: int, p: Point)
    ensures p in MiddleStrip(cur, w, h, r) <==>
              Between(cur.x + r + 1, cur.x + (w - r - 2), p.x) && Between(cur.y, cur.y + (h - 1), p.y)
  {
    var lo, hi := Point(cur.x + r + 1, cur.y), Point(cur.x + (w - r - 2), cur.y + (h - 1));
    HalvesMember(lo, hi, cur, p);
  }

  /** The filled pixels are the filled corners and the strips the two size
      checks let through. */
  lemma FillMember(cur: Point, w: int, h: int, r: int, p: Point)
    requires !RoundedRejected(w, h, r)
    ensures p in RoundedFillPoints(cur, w, h, r) <==>
              p in RoundedCorners(cur, w, h, r, true) ||
              (h - 2 * r > 0 && p in SideStrips(cur, w, h, r)) ||
              (w - 2 * r > 0 && p in MiddleStrip(cur, w, h, r))
  {
    var corners := RoundedCorners(cur, w, h, r, true);
    var upToSides := if h - 2 * r > 0 then corners + SideStrips(cur, w, h, r) else corners;
    InAppend(corners, SideStrips(cur, w, h, r), p);
    InAppend(upToSides, MiddleStrip(cur, w, h, r), p);
  }

  /** A filled rounded rectangle never leaves its box. */
  lemma RoundedFillInBox(cur: Point, w: int, h: int, r: int, p: Point)
    requires !RoundedRejected(w, h, r)
    requires p in RoundedFillPoints(cur, w, h, r)
    ensures InBox(cur, w, h, p)
  {
    RoundedGuard(w, h, r);
    FillMember(cur, w, h, r, p);
    if p in RoundedCorners(cur, w, h, r, true) {
      CornersInBox(cur, w, h, r, true, p);
    } else if h - 2 * r > 0 && p in SideStrips(cur, w, h, r) {
      SideStripsMember(cur, w, h, r, p);
    } else {
      MiddleStripMember(cur, w, h, r, p);
    }
  }

  /** Every pixel of the box outside its four corner regions, each r + 1
      columns wide and r rows tall, is filled: the columns strictly between the corners over the whole height,
      and the rows between the corners over the whole width. */
  lemma RoundedFillCovers(cur: Point, w: int, h: int, r: int, p: Point)
    requires !RoundedRejected(w, h, r) && InBox(cur, w, h, p)
    requires cur.x + r + 1 <= p.x <= cur.x + w - r - 2 || cur.y + r <= p.y <= cur.y + h - r - 1
    ensures p in RoundedFillPoints(cur, w, h, r)
  {
    RoundedGuard(w, h, r);
    FillMember(cur, w, h, r, p);
    if cur.x + r + 1 <= p.x <= cur.x + w - r - 2 {
      MiddleStripMember(cur, w, h, r, p);
    } else {
      SideStripsMember(cur, w, h, r, p);
    }
  }

  /** The outline corners lie inside the filled corners about the same centres. */
  lemma CornersOutlineInFill(cur: Point, w: int, h: int, r: int, p: Point)
    requires p in RoundedCorners(cur, w, h, r, false)
    ensures p in RoundedCorners(cur, w, h, r, true)
  {
    var a, b := Point(cur.x + r, cur.y + r), Point(cur.x + (w - r - 1), cur.y + (h - r - 1));
    RoundedCornersAt(cur, w, h, r, false, a, b);
    RoundedCornersAt(cur, w, h, r, true, a, b);
    InFour(QuadrantPoints(a.x, a.y, r, 4, false), QuadrantPoints(b.x, a.y, r, 8, false),
           QuadrantPoints(a.x, b.y, r, 2, false), QuadrantPoints(b.x, b.y, r, 1, false), p);
    InFour(QuadrantPoints(a.x, a.y, r, 4, true), QuadrantPoints(b.x, a.y, r, 8, true),
           QuadrantPoints(a.x, b.y, r, 2, true), QuadrantPoints(b.x, b.y, r, 1, true), p);
    if p in QuadrantPoints(a.x, a.y, r, 4, false) {
      QuadrantOutlineInFill(a.x, a.y, r, 4, p);
    } else if p in QuadrantPoints(b.x, a.y, r, 8, false) {
      QuadrantOutlineInFill(b.x, a.y, r, 8, p);
    } else if p in QuadrantPoints(a.x, b.y, r, 2, false) {
      QuadrantOutlineInFill(a.x, b.y, r, 2, p);
    } else {
      QuadrantOutlineInFill(b.x, b.y, r, 1, p);
    }
  }

  /** When the box is wider than two radii and at least two pixels taller,
      every outline pixel is also a fill pixel. */
  lemma RoundedOutlineInFill(cur: Point, w: int, h: int, r: int, p: Point)
    requires !RoundedRejected(w, h, r) && w > 2 * r && h > 2 * r + 1
    requires p in RoundedOutlinePoints(cur, w, h, r)
    ensures p in RoundedFillPoints(cur, w, h, r)
  {
    OutlineMember(cur, w, h, r, p);
    FillMember(cur, w, h, r, p);
    if p in RoundedCorners(cur, w, h, r, false) {
      CornersOutlineInFill(cur, w, h, r, p);
    } else {
      SidesMember(cur, w, h, r, p);
      MiddleStripMember(cur, w, h, r, p);
      SideStripsMember(cur, w, h, r, p);
    }
  }
}
