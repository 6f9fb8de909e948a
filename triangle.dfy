// The triangle rasteriser __paint_triangle (lib/src/gfx.c:337-436): a
// half-space test in 28.4 fixed point over the vertices' bounding box, with a
// line through the box's diagonal when the vertices are collinear.

module Triangle {
  import opened GfxHeader
  import opened Arith
  import opened Sink
  import opened Line
  import opened Scan
  import opened LineFacts

  /** The `min(x, y, z)` macro: the first operand when it is strictly below
      both others, otherwise the smaller of the last two. */
  function Min3(a: int, b: int, c: int): (m: int)
    ensures m <= a && m <= b && m <= c
    ensures m == a || m == b || m == c
  {
    if a < b && a < c then a else if b < c then b else c
  }

  /** The `max(x, y, z)` macro. */
  function Max3(a: int, b: int, c: int): (m: int)
    ensures m >= a && m >= b && m >= c
    ensures m == a || m == b || m == c
  {
    if a > b && a > c then a else if b > c then b else c
  }

  /** Three vertices in the order the caller gives them. */
  datatype Tri = Tri(p0: Point, p1: Point, p2: Point)

  /** Twice the signed area of (a, b, p): the z component of (b - a) x (p - a).
      Positive when p lies to the left of a -> b in x-right, y-up axes. */
  function Orient(a: Point, b: Point, p: Point): int
  {
    (b.x - a.x) * (p.y - a.y) - (b.y - a.y) * (p.x - a.x)
  }

  /** The `cross` of the source: Orient of the vertices in the caller's order. */
  function Cross(t: Tri): int
  {
    Orient(t.p0, t.p1, t.p2)
  }

  /** p lies in the closed triangle: on the same side of all three edges, or on one. */
  predicate InTriangle(t: Tri, p: Point)
  {
    var u, v, w := Orient(t.p0, t.p1, p), Orient(t.p1, t.p2, p), Orient(t.p2, t.p0, p);
    (u >= 0 && v >= 0 && w >= 0) || (u <= 0 && v <= 0 && w <= 0)
  }

  /** The pixels __paint_triangle paints, in the order it paints them: for
      collinear vertices the line between the corners of their bounding box,
      otherwise every lattice point of the closed triangle, row by row from the
      top of the bounding box and left to right in each row. `cur` is the
      context cursor (see LinePoints). */
  function TrianglePoints(t: Tri, cur: Point): seq<Point>
  {
    var x0, x1 := Min3(t.p0.x, t.p1.x, t.p2.x), Max3(t.p0.x, t.p1.x, t.p2.x);
    var y0, y1 := Min3(t.p0.y, t.p1.y, t.p2.y), Max3(t.p0.y, t.p1.y, t.p2.y);
    if Cross(t) == 0 then LinePoints(x0, y0, x1, y1, cur)
    else BoxPoints(Inside(t), x0, x1 - x0 + 1, y0, y1 - y0 + 1)
  }

  function Inside(t: Tri): Point -> bool
  {
    p => InTriangle(t, p)
  }

  // ---------------------------------------------------------------------
  // The rasteriser as written: vertices reordered to a negative cross
  // product, edge functions in 28.4 fixed point, incremental scan.

  /** The working order: the first vertex, then the other two swapped unless
      the cross product is negative. */
  function Working(t: Tri): Tri
  {
    if Cross(t) < 0 then t else Tri(t.p0, t.p2, t.p1)
  }

  /** The pixel passes all three edge tests of the working order. */
  predicate Covered(w: Tri, p: Point)
  {
    Orient(w.p0, w.p1, p) <= 0 && Orient(w.p1, w.p2, p) <= 0 && Orient(w.p2, w.p0, p) <= 0
  }

  function Passes(w: Tri): Point -> bool
  {
    p => Covered(w, p)
  }

  /** __paint_triangle: the callbacks it makes are those of TrianglePoints. */
  method PaintTriangle(d: Device, x0: int, y0: int, x1: int, y1: int, x2: int, y2: int, color: Color)
    returns (out: seq<Write>)
    ensures out == Emit(d, TrianglePoints(Tri(Point(x0, y0), Point(x1, y1), Point(x2, y2)), d.cursor), color)
  {
    ghost var t := Tri(Point(x0, y0), Point(x1, y1), Point(x2, y2));
    var cross := (x1 - x0) * (y2 - y0) - (y1 - y0) * (x2 - x0);
    assert cross == Cross(t);
    if cross == 0 {
      out := PaintLine(d, Min3(x0, x1, x2), Min3(y0, y1, y2), Max3(x0, x1, x2), Max3(y0, y1, y2), color);
      assert TrianglePoints(t, d.cursor) == LinePoints(Min3(x0, x1, x2), Min3(y0, y1, y2), Max3(x0, x1, x2), Max3(y0, y1, y2), d.cursor);
      return;
    }
    ghost var w := Working(t);
    assert w.p1 == (if cross < 0 then Point(x1, y1) else Point(x2, y2));
    assert w.p2 == (if cross < 0 then Point(x2, y2) else Point(x1, y1));

    // 28.4 fixed point
    var Y1 := y0 * 16;
    var Y2 := (if cross < 0 then y1 else y2) * 16;
    var Y3 := (if cross < 0 then y2 else y1) * 16;
    var X1 := x0 * 16;
    var X2 := (if cross < 0 then x1 else x2) * 16;
    var X3 := (if cross < 0 then x2 else x1) * 16;

    // bounding rectangle
    var minx := ShiftRight4(Min3(X1, X2, X3) + 0xF);
    var maxx := ShiftRight4(Max3(X1, X2, X3) + 0xF);
    var miny := ShiftRight4(Min3(Y1, Y2, Y3) + 0xF);
    var maxy := ShiftRight4(Max3(Y1, Y2, Y3) + 0xF);
    BoxCorners(t, cross);
    assert minx == Min3(x0, x1, x2) && maxx == Max3(x0, x1, x2);
    assert miny == Min3(y0, y1, y2) && maxy == Max3(y0, y1, y2);

    // deltas, half-edge constants with the fill-convention bias, and their
    // values at the top-left corner of the box, edge by edge
    var FDX12, FDY12, CY1, b1 := HalfEdge(w.p0, w.p1, X1, Y1, X2, Y2, minx, miny);
    var FDX23, FDY23, CY2, b2 := HalfEdge(w.p1, w.p2, X2, Y2, X3, Y3, minx, miny);
    var FDX31, FDY31, CY3, b3 := HalfEdge(w.p2, w.p0, X3, Y3, X1, Y1, minx, miny);

    ghost var n: nat, rows: nat := maxx + 1 - minx, maxy + 1 - miny;
    out := ScanBox(d, w, Passes(w), CY1, CY2, CY3, FDX12, FDX23, FDX31, FDY12, FDY23, FDY31,
                   minx, maxx, miny, maxy, n, rows, b1, b2, b3, color);
    TriangleScan(t, d.cursor, minx, maxx, miny, maxy, n, rows);
  }

  /** The per-edge set-up of __paint_triangle for the edge from a to b, whose
      end points are (X1, Y1) and (X2, Y2) in 28.4 fixed point: the row and
      column steps of the edge function and its value at (minx, miny), which is
      Orient scaled by -256 plus the fill-convention bias. */
  method HalfEdge(ghost a: Point, ghost b: Point, X1: int, Y1: int, X2: int, Y2: int, minx: int, miny: int)
    returns (FDX: int, FDY: int, CY: int, ghost bias: int)
    requires X1 == a.x * 16 && Y1 == a.y * 16 && X2 == b.x * 16 && Y2 == b.y * 16
    ensures FDX == 256 * (a.x - b.x) && FDY == 256 * (a.y - b.y)
    ensures 0 <= bias <= 1 && CY == -256 * Orient(a, b, Point(minx, miny)) + bias
  {
    var DX, DY := X1 - X2, Y1 - Y2;
    FDX, FDY := DX * 16, DY * 16;
    var C := DY * X1 - DX * Y1;
    bias := 0;
    if (DY < 0) || ((DY == 0) && (DX > 0)) {
      C := C + 1;
      bias := 1;
    }
    CY := C + DX * (miny * 16) - DY * (minx * 16);
    FixedPointEdge(a, b, Point(minx, miny), X1, Y1, DX, DY);
  }

  /** For a triangle that is not degenerate, the scan of the working order over
      the vertices' bounding box makes the callbacks of TrianglePoints. */
  lemma TriangleScan(t: Tri, cur: Point, minx: int, maxx: int, miny: int, maxy: int, n: nat, rows: nat)
    requires Cross(t) != 0
    requires minx == Min3(t.p0.x, t.p1.x, t.p2.x) && maxx == Max3(t.p0.x, t.p1.x, t.p2.x)
    requires miny == Min3(t.p0.y, t.p1.y, t.p2.y) && maxy == Max3(t.p0.y, t.p1.y, t.p2.y)
    requires n == maxx + 1 - minx && rows == maxy + 1 - miny
    ensures BoxPoints(Passes(Working(t)), minx, n, miny, rows) == TrianglePoints(t, cur)
  {
    forall p ensures Passes(Working(t))(p) == Inside(t)(p) {
      CoveredIsInside(t, p);
    }
    BoxPointsSame(Passes(Working(t)), Inside(t), minx, n, miny, rows);
  }

  /** The outer loop of __paint_triangle: the rows of the bounding box. */
  method ScanBox(d: Device, ghost w: Tri, ghost keep: Point -> bool, CY1: int, CY2: int, CY3: int,
                 FDX12: int, FDX23: int, FDX31: int, FDY12: int, FDY23: int, FDY31: int,
                 minx: int, maxx: int, miny: int, maxy: int, ghost n: nat, ghost rows: nat,
                 ghost b1: int, ghost b2: int, ghost b3: int, color: Color)
    returns (out: seq<Write>)
    requires forall p {:trigger Covered(w, p)} :: keep(p) == Covered(w, p)
    requires n == maxx + 1 - minx && rows == maxy + 1 - miny
    requires 0 <= b1 <= 1 && 0 <= b2 <= 1 && 0 <= b3 <= 1
    requires FDX12 == 256 * (w.p0.x - w.p1.x) && FDX23 == 256 * (w.p1.x - w.p2.x) && FDX31 == 256 * (w.p2.x - w.p0.x)
    requires FDY12 == 256 * (w.p0.y - w.p1.y) && FDY23 == 256 * (w.p1.y - w.p2.y) && FDY31 == 256 * (w.p2.y - w.p0.y)
    requires CY1 == -256 * Orient(w.p0, w.p1, Point(minx, miny)) + b1
    requires CY2 == -256 * Orient(w.p1, w.p2, Point(minx, miny)) + b2
    requires CY3 == -256 * Orient(w.p2, w.p0, Point(minx, miny)) + b3
    ensures out == BoxWrites(d, keep, minx, n, miny, rows, color)
  {
    var cy1, cy2, cy3 := CY1, CY2, CY3;
    var y := miny;
    ghost var m: nat := 0;
    out := [];
    while y <= maxy
      invariant y == miny + m && m <= rows
      invariant cy1 == -256 * Orient(w.p0, w.p1, Point(minx, y)) + b1
      invariant cy2 == -256 * Orient(w.p1, w.p2, Point(minx, y)) + b2
      invariant cy3 == -256 * Orient(w.p2, w.p0, Point(minx, y)) + b3
      invariant out == BoxWrites(d, keep, minx, n, miny, m, color)
    {
      out, cy1, cy2, cy3 := ScanNextRow(d, w, keep, cy1, cy2, cy3, FDX12, FDX23, FDX31, FDY12, FDY23, FDY31,
                                        minx, maxx, n, miny, m, y, b1, b2, b3, color, out);
      y, m := y + 1, m + 1;
    }
    assert m == rows;
  }

  /** One pass of the outer loop of __paint_triangle: row y, the m-th from miny, follows
      the rows above it, and the edge values move down to the next row. */
  method ScanNextRow(d: Device, ghost w: Tri, ghost keep: Point -> bool, cy1: int, cy2: int, cy3: int,
                     FDX12: int, FDX23: int, FDX31: int, FDY12: int, FDY23: int, FDY31: int,
                     minx: int, maxx: int, ghost n: nat, ghost miny: int, ghost m: nat, y: int,
                     ghost b1: int, ghost b2: int, ghost b3: int, color: Color, above: seq<Write>)
    returns (out: seq<Write>, next1: int, next2: int, next3: int)
    requires forall p {:trigger Covered(w, p)} :: keep(p) == Covered(w, p)
    requires n == maxx + 1 - minx && y == miny + m
    requires 0 <= b1 <= 1 && 0 <= b2 <= 1 && 0 <= b3 <= 1
    requires FDX12 == 256 * (w.p0.x - w.p1.x) && FDX23 == 256 * (w.p1.x - w.p2.x) && FDX31 == 256 * (w.p2.x - w.p0.x)
    requires FDY12 == 256 * (w.p0.y - w.p1.y) && FDY23 == 256 * (w.p1.y - w.p2.y) && FDY31 == 256 * (w.p2.y - w.p0.y)
    requires cy1 == -256 * Orient(w.p0, w.p1, Point(minx, y)) + b1
    requires cy2 == -256 * Orient(w.p1, w.p2, Point(minx, y)) + b2
    requires cy3 == -256 * Orient(w.p2, w.p0, Point(minx, y)) + b3
    requires above == BoxWrites(d, keep, minx, n, miny, m, color)
    ensures out == BoxWrites(d, keep, minx, n, miny, m + 1, color)
    ensures next1 == -256 * Orient(w.p0, w.p1, Point(minx, y + 1)) + b1
    ensures next2 == -256 * Orient(w.p1, w.p2, Point(minx, y + 1)) + b2
    ensures next3 == -256 * Orient(w.p2, w.p0, Point(minx, y + 1)) + b3
  {
    var row := ScanRow(d, w, keep, cy1, cy2, cy3, FDY12, FDY23, FDY31, minx, maxx, n, y, b1, b2, b3, color);
    BoxWritesStep(d, keep, minx, n, miny, m, y, color);
    out := above + row;
    EdgeStepY(w.p0, w.p1, minx, y, cy1, FDX12, b1);
    EdgeStepY(w.p1, w.p2, minx, y, cy2, FDX23, b2);
    EdgeStepY(w.p2, w.p0, minx, y, cy3, FDX31, b3);
    next1, next2, next3 := cy1 + FDX12, cy2 + FDX23, cy3 + FDX31;
  }

  /** The inner loop of __paint_triangle: one row of the bounding box. */
  method ScanRow(d: Device, ghost w: Tri, ghost keep: Point -> bool, CY1: int, CY2: int, CY3: int, FDY12: int, FDY23: int, FDY31: int,
                 minx: int, maxx: int, ghost n: nat, y: int, ghost b1: int, ghost b2: int, ghost b3: int, color: Color)
    returns (out: seq<Write>)
    requires forall p {:trigger Covered(w, p)} :: keep(p) == Covered(w, p)
    requires n == maxx + 1 - minx
    requires 0 <= b1 <= 1 && 0 <= b2 <= 1 && 0 <= b3 <= 1
    requires FDY12 == 256 * (w.p0.y - w.p1.y) && FDY23 == 256 * (w.p1.y - w.p2.y) && FDY31 == 256 * (w.p2.y - w.p0.y)
    requires CY1 == -256 * Orient(w.p0, w.p1, Point(minx, y)) + b1
    requires CY2 == -256 * Orient(w.p1, w.p2, Point(minx, y)) + b2
    requires CY3 == -256 * Orient(w.p2, w.p0, Point(minx, y)) + b3
    ensures out == RowWrites(d, keep, minx, n, y, color)
  {
    var CX1, CX2, CX3 := CY1, CY2, CY3;
    var x := minx;
    ghost var k: nat := 0;
    out := [];
    while x <= maxx
      invariant x == minx + k && k <= n
      invariant CX1 == -256 * Orient(w.p0, w.p1, Point(x, y)) + b1
      invariant CX2 == -256 * Orient(w.p1, w.p2, Point(x, y)) + b2
      invariant CX3 == -256 * Orient(w.p2, w.p0, Point(x, y)) + b3
      invariant out == RowWrites(d, keep, minx, k, y, color)
    {
      BiasIneffective(Orient(w.p0, w.p1, Point(x, y)), b1);
      BiasIneffective(Orient(w.p1, w.p2, Point(x, y)), b2);
      BiasIneffective(Orient(w.p2, w.p0, Point(x, y)), b3);
      assert keep(Point(x, y)) == Covered(w, Point(x, y));
      if (CX1 >= 0) && (CX2 >= 0) && (CX3 >= 0) {
        out := out + Plot(d, Point(x, y), color);
      }
      EdgeStepX(w.p0, w.p1, x, y, CX1, FDY12, b1);
      EdgeStepX(w.p1, w.p2, x, y, CX2, FDY23, b2);
      EdgeStepX(w.p2, w.p0, x, y, CX3, FDY31, b3);
      CX1 := CX1 - FDY12;
      CX2 := CX2 - FDY23;
      CX3 := CX3 - FDY31;
      x, k := x + 1, k + 1;
    }
    assert k == n;
  }

  /** A bias of 0 or 1 on an edge value scaled by 256 never changes its sign
      test: the scaled value is >= 0 exactly when the edge value is. */
  lemma BiasIneffective(e: int, b: int)
    requires 0 <= b <= 1
    ensures -256 * e + b >= 0 <==> e <= 0
  {
  }

  /** One column right: the source's step of an edge value by -FDY. */
  lemma EdgeStepX(a: Point, b: Point, x: int, y: int, cx: int, FDY: int, bias: int)
    requires FDY == 256 * (a.y - b.y) && cx == -256 * Orient(a, b, Point(x, y)) + bias
    ensures cx - FDY == -256 * Orient(a, b, Point(x + 1, y)) + bias
  {
  }

  /** One row down: the source's step of an edge value by +FDX. */
  lemma EdgeStepY(a: Point, b: Point, x: int, y: int, cy: int, FDX: int, bias: int)
    requires FDX == 256 * (a.x - b.x) && cy == -256 * Orient(a, b, Point(x, y)) + bias
    ensures cy + FDX == -256 * Orient(a, b, Point(x, y + 1)) + bias
  {
  }

  /** The source's half-edge constant evaluated at q, in 28.4 fixed point, is
      -256 times Orient(a, b, q) plus the bias. */
  lemma FixedPointEdge(a: Point, b: Point, q: Point, X1: int, Y1: int, DX: int, DY: int)
    requires X1 == a.x * 16 && Y1 == a.y * 16 && DX == X1 - b.x * 16 && DY == Y1 - b.y * 16
    ensures DY * X1 - DX * Y1 + DX * (q.y * 16) - DY * (q.x * 16) == -256 * Orient(a, b, q)
  {
  }

  /** The fixed-point bounding box is the box of the vertices: rounding
      16 v + 15 down to a multiple of 16 gives back v. */
  lemma BoxCorners(t: Tri, cross: int)
    requires cross == Cross(t)
    ensures ShiftRight4(Min3(t.p0.x * 16, Working(t).p1.x * 16, Working(t).p2.x * 16) + 0xF) == Min3(t.p0.x, t.p1.x, t.p2.x)
    ensures ShiftRight4(Max3(t.p0.x * 16, Working(t).p1.x * 16, Working(t).p2.x * 16) + 0xF) == Max3(t.p0.x, t.p1.x, t.p2.x)
    ensures ShiftRight4(Min3(t.p0.y * 16, Working(t).p1.y * 16, Working(t).p2.y * 16) + 0xF) == Min3(t.p0.y, t.p1.y, t.p2.y)
    ensures ShiftRight4(Max3(t.p0.y * 16, Working(t).p1.y * 16, Working(t).p2.y * 16) + 0xF) == Max3(t.p0.y, t.p1.y, t.p2.y)
  {
  }

  /** Swapping the ends of an edge negates Orient. */
  lemma OrientSwap(a: Point, b: Point, p: Point)
    ensures Orient(b, a, p) == -Orient(a, b, p)
  {
  }

  /** The three edge values of a point sum to the cross product. */
  lemma OrientSum(a: Point, b: Point, c: Point, p: Point)
    ensures Orient(a, b, p) + Orient(b, c, p) + Orient(c, a, p) == Orient(a, b, c)
  {
  }

  /** For a triangle that is not degenerate, the edge tests of the working
      order accept exactly the points of the closed triangle. */
  lemma CoveredIsInside(t: Tri, p: Point)
    requires Cross(t) != 0
    ensures Covered(Working(t), p) <==> InTriangle(t, p)
  {
    OrientSum(t.p0, t.p1, t.p2, p);
    if Cross(t) > 0 {
      OrientSwap(t.p0, t.p2, p);
      OrientSwap(t.p2, t.p1, p);
      OrientSwap(t.p1, t.p0, p);
    }
  }

  // ---------------------------------------------------------------------
  // What the painted set is.

  /** Cross times p.x is the combination of the vertices' x weighted by the
      edge values of p (barycentric coordinates), written out on integers:
      u, v, w are the edge values Orient(b, c, p), Orient(c, a, p),
      Orient(a, b, p) and s the cross product Orient(a, b, c). */
  lemma BarycentricX(ax: int, ay: int, bx: int, bY: int, cx: int, cy: int, px: int, py: int,
                     u: int, v: int, w: int, s: int)
    requires u == (cx - bx) * (py - bY) - (cy - bY) * (px - bx)
    requires v == (ax - cx) * (py - cy) - (ay - cy) * (px - cx)
    requires w == (bx - ax) * (py - ay) - (bY - ay) * (px - ax)
    requires s == (bx - ax) * (cy - ay) - (bY - ay) * (cx - ax)
    ensures u * ax + v * bx + w * cx == s * px
  {
  }

  /** The same for p.y. */
  lemma BarycentricY(ax: int, ay: int, bx: int, bY: int, cx: int, cy: int, px: int, py: int,
                     u: int, v: int, w: int, s: int)
    requires u == (cx - bx) * (py - bY) - (cy - bY) * (px - bx)
    requires v == (ax - cx) * (py - cy) - (ay - cy) * (px - cx)
    requires w == (bx - ax) * (py - ay) - (bY - ay) * (px - ax)
    requires s == (bx - ax) * (cy - ay) - (bY - ay) * (cx - ax)
    ensures u * ay + v * bY + w * cy == s * py
  {
  }

  lemma MulNonneg(u: int, v: int)
    requires u >= 0 && v >= 0
    ensures u * v >= 0
  {
  }

  /** If s z is a combination of a, b, c with non-negative weights summing to
      s > 0, then z is at least any lower bound of a, b, c. */
  lemma WeightedLower(u: int, v: int, w: int, a: int, b: int, c: int, s: int, z: int, lo: int)
    requires u >= 0 && v >= 0 && w >= 0 && s == u + v + w && s > 0
    requires u * a + v * b + w * c == s * z
    requires lo <= a && lo <= b && lo <= c
    ensures lo <= z
  {
    MulNonneg(u, a - lo); MulNonneg(v, b - lo); MulNonneg(w, c - lo);
    MulSub(u, a, lo); MulSub(v, b, lo); MulSub(w, c, lo);
    MulSum3(u, v, w, s, lo);
    if z < lo {
      MulPos(s, lo - z);
      MulSub(s, lo, z);
    }
  }

  lemma MulSub(u: int, a: int, k: int)
    ensures u * (a - k) == u * a - u * k
  {
  }

  lemma MulSum3(u: int, v: int, w: int, s: int, k: int)
    requires s == u + v + w
    ensures s * k == u * k + v * k + w * k
  {
  }

  /** ... and at most any upper bound of them. */
  lemma WeightedUpper(u: int, v: int, w: int, a: int, b: int, c: int, s: int, z: int, hi: int)
    requires u >= 0 && v >= 0 && w >= 0 && s == u + v + w && s > 0
    requires u * a + v * b + w * c == s * z
    requires a <= hi && b <= hi && c <= hi
    ensures z <= hi
  {
    MulNonneg(u, hi - a); MulNonneg(v, hi - b); MulNonneg(w, hi - c);
    MulSub(u, hi, a); MulSub(v, hi, b); MulSub(w, hi, c);
    MulSum3(u, v, w, s, hi);
    if z > hi {
      MulPos(s, z - hi);
      MulSub(s, z, hi);
    }
  }

  lemma Negated(u: int, v: int, w: int, a: int, b: int, c: int, s: int, z: int)
    requires u * a + v * b + w * c == s * z
    ensures (-u) * a + (-v) * b + (-w) * c == (-s) * z
  {
  }

  /** A weighted combination with weights of one sign lies between the least
      and the greatest of the combined values. */
  lemma WeightedBetween(u: int, v: int, w: int, a: int, b: int, c: int, s: int, z: int)
    requires (u >= 0 && v >= 0 && w >= 0) || (u <= 0 && v <= 0 && w <= 0)
    requires s == u + v + w && s != 0
    requires u * a + v * b + w * c == s * z
    ensures Min3(a, b, c) <= z <= Max3(a, b, c)
  {
    if s > 0 {
      WeightedLower(u, v, w, a, b, c, s, z, Min3(a, b, c));
      WeightedUpper(u, v, w, a, b, c, s, z, Max3(a, b, c));
    } else {
      Negated(u, v, w, a, b, c, s, z);
      WeightedLower(-u, -v, -w, a, b, c, -s, z, Min3(a, b, c));
      WeightedUpper(-u, -v, -w, a, b, c, -s, z, Max3(a, b, c));
    }
  }

  /** The closed triangle of a non-degenerate triangle lies in its bounding box. */
  lemma InTriangleInBox(t: Tri, p: Point)
    requires Cross(t) != 0 && InTriangle(t, p)
    ensures Min3(t.p0.x, t.p1.x, t.p2.x) <= p.x <= Max3(t.p0.x, t.p1.x, t.p2.x)
    ensures Min3(t.p0.y, t.p1.y, t.p2.y) <= p.y <= Max3(t.p0.y, t.p1.y, t.p2.y)
  {
    var a, b, c := t.p0, t.p1, t.p2;
    var u, v, w := Orient(b, c, p), Orient(c, a, p), Orient(a, b, p);
    var s := Cross(t);
    BarycentricX(a.x, a.y, b.x, b.y, c.x, c.y, p.x, p.y, u, v, w, s);
    BarycentricY(a.x, a.y, b.x, b.y, c.x, c.y, p.x, p.y, u, v, w, s);
    OrientSum(a, b, c, p);
    WeightedBetween(u, v, w, a.x, b.x, c.x, s, p.x);
    WeightedBetween(u, v, w, a.y, b.y, c.y, s, p.y);
  }

  /** A non-degenerate triangle paints exactly the lattice points of the closed triangle. */
  lemma TriangleMember(t: Tri, cur: Point, p: Point)
    requires Cross(t) != 0
    ensures p in TrianglePoints(t, cur) <==> InTriangle(t, p)
  {
    var x0, x1 := Min3(t.p0.x, t.p1.x, t.p2.x), Max3(t.p0.x, t.p1.x, t.p2.x);
    var y0, y1 := Min3(t.p0.y, t.p1.y, t.p2.y), Max3(t.p0.y, t.p1.y, t.p2.y);
    BoxPointsMember(Inside(t), x0, x1 - x0 + 1, y0, y1 - y0 + 1, p);
    if InTriangle(t, p) {
      InTriangleInBox(t, p);
    }
  }

  /** A non-degenerate triangle is painted row by row, left to right, each pixel once. */
  lemma TriangleOrdered(t: Tri, cur: Point)
    requires Cross(t) != 0
    ensures RowMajor(TrianglePoints(t, cur))
  {
    var x0, x1 := Min3(t.p0.x, t.p1.x, t.p2.x), Max3(t.p0.x, t.p1.x, t.p2.x);
    var y0, y1 := Min3(t.p0.y, t.p1.y, t.p2.y), Max3(t.p0.y, t.p1.y, t.p2.y);
    BoxPointsOrdered(Inside(t), x0, x1 - x0 + 1, y0, y1 - y0 + 1);
  }

  /** The three vertices of a non-degenerate triangle are painted. */
  lemma VerticesPainted(t: Tri, cur: Point)
    requires Cross(t) != 0
    ensures t.p0 in TrianglePoints(t, cur) && t.p1 in TrianglePoints(t, cur) && t.p2 in TrianglePoints(t, cur)
  {
    OrientSum(t.p0, t.p1, t.p2, t.p0);
    OrientSum(t.p0, t.p1, t.p2, t.p1);
    OrientSum(t.p0, t.p1, t.p2, t.p2);
    TriangleMember(t, cur, t.p0);
    TriangleMember(t, cur, t.p1);
    TriangleMember(t, cur, t.p2);
  }

  /** Starting from another vertex paints the same pixels in the same order. */
  lemma TriangleRotate(t: Tri, cur: Point)
    ensures TrianglePoints(Tri(t.p1, t.p2, t.p0), cur) == TrianglePoints(t, cur)
  {
    var r := Tri(t.p1, t.p2, t.p0);
    assert Cross(r) == Cross(t) by {
      OrientSum(t.p0, t.p1, t.p2, t.p0);
      OrientSum(t.p1, t.p2, t.p0, t.p1);
    }
    ExtentRotate(t.p0.x, t.p1.x, t.p2.x);
    ExtentRotate(t.p0.y, t.p1.y, t.p2.y);
    SameTriangle(t, r, cur);
  }

  /** Giving the vertices in the opposite winding paints the same pixels in the same order. */
  lemma TriangleSwap(t: Tri, cur: Point)
    ensures TrianglePoints(Tri(t.p0, t.p2, t.p1), cur) == TrianglePoints(t, cur)
  {
    var r := Tri(t.p0, t.p2, t.p1);
    forall p
      ensures InTriangle(r, p) == InTriangle(t, p)
    {
      SwapInside(t, p);
    }
    assert Cross(r) == -Cross(t) by {
      OrientSwap(t.p0, t.p1, t.p2);
      OrientSum(t.p0, t.p1, t.p2, t.p0);
      OrientSum(t.p0, t.p2, t.p1, t.p0);
    }
    ExtentSwap(t.p0.x, t.p1.x, t.p2.x);
    ExtentSwap(t.p0.y, t.p1.y, t.p2.y);
    SameTriangle(t, r, cur);
  }

  /** Two triangles with the same bounding box and the same closed triangle,
      degenerate together, paint the same pixels in the same order. */
  lemma SameTriangle(t: Tri, r: Tri, cur: Point)
    requires (Cross(t) == 0) == (Cross(r) == 0)
    requires Min3(r.p0.x, r.p1.x, r.p2.x) == Min3(t.p0.x, t.p1.x, t.p2.x)
    requires Max3(r.p0.x, r.p1.x, r.p2.x) == Max3(t.p0.x, t.p1.x, t.p2.x)
    requires Min3(r.p0.y, r.p1.y, r.p2.y) == Min3(t.p0.y, t.p1.y, t.p2.y)
    requires Max3(r.p0.y, r.p1.y, r.p2.y) == Max3(t.p0.y, t.p1.y, t.p2.y)
    requires forall p :: InTriangle(r, p) == InTriangle(t, p)
    ensures TrianglePoints(r, cur) == TrianglePoints(t, cur)
  {
    if Cross(t) != 0 {
      ProperIsBox(t, cur);
      ProperIsBox(r, cur);
      var x0, x1 := Min3(t.p0.x, t.p1.x, t.p2.x), Max3(t.p0.x, t.p1.x, t.p2.x);
      var y0, y1 := Min3(t.p0.y, t.p1.y, t.p2.y), Max3(t.p0.y, t.p1.y, t.p2.y);
      BoxPointsSame(Inside(r), Inside(t), x0, x1 - x0 + 1, y0, y1 - y0 + 1);
    } else {
      CollinearIsLine(t, cur);
      CollinearIsLine(r, cur);
    }
  }

  /** The bounding box does not depend on the order of the vertices. */
  lemma ExtentRotate(a: int, b: int, c: int)
    ensures Min3(b, c, a) == Min3(a, b, c) && Max3(b, c, a) == Max3(a, b, c)
  {
  }

  lemma ExtentSwap(a: int, b: int, c: int)
    ensures Min3(a, c, b) == Min3(a, b, c) && Max3(a, c, b) == Max3(a, b, c)
  {
  }

  /** Reversing the winding keeps the closed triangle. */
  lemma SwapInside(t: Tri, p: Point)
    ensures InTriangle(Tri(t.p0, t.p2, t.p1), p) == InTriangle(t, p)
  {
    OrientSwap(t.p0, t.p2, p);
    OrientSwap(t.p2, t.p1, p);
    OrientSwap(t.p1, t.p0, p);
  }

  /** p lies on the segment from a to b: p = a + (k / m) (b - a) with 0 <= k <= m. */
  predicate OnSegment(a: Point, b: Point, p: Point, k: int, m: int)
  {
    0 < m && 0 <= k <= m &&
    m * p.x == (m - k) * a.x + k * b.x && m * p.y == (m - k) * a.y + k * b.y
  }

  /** Every lattice point of the edge p0-p1 of a non-degenerate triangle is
      painted: the fill is closed on its edges. */
  lemma EdgePainted(t: Tri, cur: Point, p: Point, k: int, m: int)
    requires Cross(t) != 0 && OnSegment(t.p0, t.p1, p, k, m)
    ensures p in TrianglePoints(t, cur)
  {
    var a, b, c := t.p0, t.p1, t.p2;
    OrientOnSegment(a, b, c, p, k, m);
    OrientSum(a, b, c, a);
    OrientSum(a, b, c, b);
    var u, v, w := Orient(a, b, p), Orient(b, c, p), Orient(c, a, p);
    assert m * u == 0 && m * v == (m - k) * Cross(t) && m * w == k * Cross(t);
    SignOf(m, u);
    if Cross(t) > 0 {
      MulNonneg(m - k, Cross(t));
      MulNonneg(k, Cross(t));
      SignOf(m, v);
      SignOf(m, w);
    } else {
      MulNonneg(m - k, -Cross(t));
      MulNonneg(k, -Cross(t));
      SignOf(m, v);
      SignOf(m, w);
    }
    assert InTriangle(t, p);
    TriangleMember(t, cur, p);
  }

  /** The edge values at a point of the segment a-b, scaled by m: zero on a-b
      itself, and the shares (m - k) and k of the edge values at the far corners. */
  lemma OrientOnSegment(a: Point, b: Point, c: Point, p: Point, k: int, m: int)
    requires OnSegment(a, b, p, k, m)
    ensures m * Orient(a, b, p) == 0
    ensures m * Orient(b, c, p) == (m - k) * Orient(b, c, a)
    ensures m * Orient(c, a, p) == k * Orient(c, a, b)
  {
    OrientAlong(a, b, p, k, m);
    OrientFromEnd(a, b, c, p, k, m);
    OrientFromStart(a, b, c, p, k, m);
  }

  lemma OrientAlong(a: Point, b: Point, p: Point, k: int, m: int)
    requires OnSegment(a, b, p, k, m)
    ensures m * Orient(a, b, p) == 0
  {
    CrossLinear(b.x - a.x, b.y - a.y, p.x - a.x, p.y - a.y, m - k, 0, 0, k, b.x - a.x, b.y - a.y, m);
  }

  lemma OrientFromEnd(a: Point, b: Point, c: Point, p: Point, k: int, m: int)
    requires OnSegment(a, b, p, k, m)
    ensures m * Orient(b, c, p) == (m - k) * Orient(b, c, a)
  {
    CrossLinear(c.x - b.x, c.y - b.y, p.x - b.x, p.y - b.y, m - k, a.x - b.x, a.y - b.y, k, 0, 0, m);
  }

  lemma OrientFromStart(a: Point, b: Point, c: Point, p: Point, k: int, m: int)
    requires OnSegment(a, b, p, k, m)
    ensures m * Orient(c, a, p) == k * Orient(c, a, b)
  {
    CrossLinear(a.x - c.x, a.y - c.y, p.x - c.x, p.y - c.y, m - k, a.x - c.x, a.y - c.y, k, b.x - c.x, b.y - c.y, m);
  }

  /** The cross product with a fixed vector is linear in the other one. */
  lemma CrossLinear(ex: int, ey: int, qx: int, qy: int, r: int, sx: int, sy: int, k: int, tx: int, ty: int, m: int)
    requires m * qx == r * sx + k * tx && m * qy == r * sy + k * ty
    ensures m * (ex * qy - ey * qx) == r * (ex * sy - ey * sx) + k * (ex * ty - ey * tx)
  {
    assert m * (ex * qy) == ex * (m * qy) == ex * (r * sy) + ex * (k * ty);
    assert m * (ey * qx) == ey * (m * qx) == ey * (r * sx) + ey * (k * tx);
  }

  /** Two non-degenerate triangles with a common edge, given in either
      direction, both paint every lattice point of it: the fill is closed on
      every edge, so adjacent triangles overdraw their common edge. */
  lemma SharedEdge(t1: Tri, t2: Tri, cur: Point, p: Point, k: int, m: int)
    requires Cross(t1) != 0 && Cross(t2) != 0
    requires (t2.p0, t2.p1) == (t1.p0, t1.p1) || (t2.p0, t2.p1) == (t1.p1, t1.p0)
    requires OnSegment(t1.p0, t1.p1, p, k, m)
    ensures p in TrianglePoints(t1, cur) && p in TrianglePoints(t2, cur)
  {
    EdgePainted(t1, cur, p, k, m);
    if (t2.p0, t2.p1) == (t1.p0, t1.p1) {
      EdgePainted(t2, cur, p, k, m);
    } else {
      assert OnSegment(t2.p0, t2.p1, p, m - k, m);
      EdgePainted(t2, cur, p, m - k, m);
    }
  }

  /** Collinear vertices are painted as the line between the corners of their
      bounding box, top-left to bottom-right, whatever the direction of the
      vertices. For vertices on a line rising to the right, such as (0, 2),
      (1, 1), (2, 0), that is the other diagonal of the box: the first vertex,
      (x, y + k), is painted only when the cursor, which a y-driven line paints
      after each row, happens to be there. */
  lemma CollinearBoxDiagonal(x: int, y: int, k: int, j: int, cur: Point)
    requires k > 0 && 0 <= j <= k
    ensures var t := Tri(Point(x, y + k), Point(x + k, y), Point(x + j, y + k - j));
            Cross(t) == 0 && TrianglePoints(t, cur) == LinePoints(x, y, x + k, y + k, cur)
    ensures Point(x, y + k) in TrianglePoints(Tri(Point(x, y + k), Point(x + k, y), Point(x + j, y + k - j)), cur)
            <==> cur == Point(x, y + k)
  {
    CollinearBoxLine(x, y, k, j, cur);
    SlopeOneMember(x, y, x + k, y + k, cur, Point(x, y + k));
  }

  lemma CollinearBoxLine(x: int, y: int, k: int, j: int, cur: Point)
    requires k > 0 && 0 <= j <= k
    ensures var t := Tri(Point(x, y + k), Point(x + k, y), Point(x + j, y + k - j));
            Cross(t) == 0 && TrianglePoints(t, cur) == LinePoints(x, y, x + k, y + k, cur)
  {
    var t := Tri(Point(x, y + k), Point(x + k, y), Point(x + j, y + k - j));
    assert Cross(t) == 0 by {
      assert Cross(t) == k * (-j) + k * j;
    }
    assert Min3(x, x + k, x + j) == x && Max3(x, x + k, x + j) == x + k;
    assert Min3(y + k, y, y + k - j) == y && Max3(y + k, y, y + k - j) == y + k;
    CollinearIsLine(t, cur);
  }

  /** Collinear vertices paint the line between the corners of their bounding box. */
  lemma CollinearIsLine(t: Tri, cur: Point)
    requires Cross(t) == 0
    ensures TrianglePoints(t, cur) == LinePoints(Min3(t.p0.x, t.p1.x, t.p2.x), Min3(t.p0.y, t.p1.y, t.p2.y),
                                                 Max3(t.p0.x, t.p1.x, t.p2.x), Max3(t.p0.y, t.p1.y, t.p2.y), cur)
  {
  }

  /** Vertices that are not collinear paint the scan of their bounding box. */
  lemma ProperIsBox(t: Tri, cur: Point)
    requires Cross(t) != 0
    ensures TrianglePoints(t, cur) == BoxPoints(Inside(t), Min3(t.p0.x, t.p1.x, t.p2.x), Max3(t.p0.x, t.p1.x, t.p2.x) - Min3(t.p0.x, t.p1.x, t.p2.x) + 1,
                                                Min3(t.p0.y, t.p1.y, t.p2.y), Max3(t.p0.y, t.p1.y, t.p2.y) - Min3(t.p0.y, t.p1.y, t.p2.y) + 1)
  {
  }


  // ---------------------------------------------------------------------
  // Boxes painted as two right triangles, as the rounded-rectangle fill and
  // the magnified glyph cells do.

  /** The half of the box with corners (x0, y0) and (x1, y1) on the side of
      its diagonal that holds (x1, y0). */
  function LowerHalf(x0: int, y0: int, x1: int, y1: int): Tri
  {
    Tri(Point(x0, y0), Point(x1, y0), Point(x1, y1))
  }

  /** The other half, on the side that holds (x0, y1). */
  function UpperHalf(x0: int, y0: int, x1: int, y1: int): Tri
  {
    Tri(Point(x0, y0), Point(x0, y1), Point(x1, y1))
  }

  /** z lies between a and b, both included, in whichever order those come. */
  predicate Between(a: int, b: int, z: int)
  {
    if a <= b then a <= z <= b else b <= z <= a
  }

  /** Together the two halves of a box paint exactly its closed pixel range,
      both ends included on each axis, whatever the order of the corners; a box
      one pixel thin is painted as the line along it. */
  lemma HalvesCoverBox(x0: int, y0: int, x1: int, y1: int, cur: Point, p: Point)
    ensures (p in TrianglePoints(LowerHalf(x0, y0, x1, y1), cur) || p in TrianglePoints(UpperHalf(x0, y0, x1, y1), cur))
              <==> Between(x0, x1, p.x) && Between(y0, y1, p.y)
  {
    if x0 != x1 && y0 != y1 {
      HalvesCoverProperBox(x0, y0, x1, y1, cur, p);
    } else {
      HalvesCoverThinBox(x0, y0, x1, y1, cur, p);
    }
  }

  lemma HalvesCoverProperBox(x0: int, y0: int, x1: int, y1: int, cur: Point, p: Point)
    requires x0 != x1 && y0 != y1
    ensures (p in TrianglePoints(LowerHalf(x0, y0, x1, y1), cur) || p in TrianglePoints(UpperHalf(x0, y0, x1, y1), cur))
              <==> Between(x0, x1, p.x) && Between(y0, y1, p.y)
  {
    var lo, hi := LowerHalf(x0, y0, x1, y1), UpperHalf(x0, y0, x1, y1);
    var dx, dy, u, v := x1 - x0, y1 - y0, p.x - x0, p.y - y0;
    MulNonzero(dx, dy);
    assert Cross(lo) == dx * dy && Cross(hi) == -(dy * dx);
    HalfEdges(x0, y0, x1, y1, p);
    assert InTriangle(lo, p) || InTriangle(hi, p) <==> InHalves(dx, dy, u, v);
    TriangleMember(lo, cur, p);
    TriangleMember(hi, cur, p);
    HalvesSigned(dx, dy, u, v);
  }

  /** The edge values of the two halves at p, written out. */
  lemma HalfEdges(x0: int, y0: int, x1: int, y1: int, p: Point)
    ensures var lo, hi, dx, dy, u, v := LowerHalf(x0, y0, x1, y1), UpperHalf(x0, y0, x1, y1), x1 - x0, y1 - y0, p.x - x0, p.y - y0;
            Orient(lo.p0, lo.p1, p) == dx * v && Orient(lo.p1, lo.p2, p) == dy * (dx - u) &&
            Orient(lo.p2, lo.p0, p) == dy * u - dx * v &&
            Orient(hi.p0, hi.p1, p) == -(dy * u) && Orient(hi.p1, hi.p2, p) == dx * (v - dy) &&
            Orient(hi.p2, hi.p0, p) == dy * u - dx * v
  {
    var dx, dy, u, v := x1 - x0, y1 - y0, p.x - x0, p.y - y0;
    assert (x0 - x1) * (p.y - y1) == -(dx * (v - dy)) && (y0 - y1) * (p.x - x1) == -(dy * (u - dx));
    assert dx * (v - dy) == dx * v - dx * dy && dy * (u - dx) == dy * u - dy * dx;
  }

  lemma HalvesCoverThinBox(x0: int, y0: int, x1: int, y1: int, cur: Point, p: Point)
    requires x0 == x1 || y0 == y1
    ensures (p in TrianglePoints(LowerHalf(x0, y0, x1, y1), cur) || p in TrianglePoints(UpperHalf(x0, y0, x1, y1), cur))
              <==> Between(x0, x1, p.x) && Between(y0, y1, p.y)
  {
    var lo, hi := LowerHalf(x0, y0, x1, y1), UpperHalf(x0, y0, x1, y1);
    var xa, xb := if x0 <= x1 then x0 else x1, if x0 <= x1 then x1 else x0;
    var ya, yb := if y0 <= y1 then y0 else y1, if y0 <= y1 then y1 else y0;
    assert Cross(lo) == 0 && Cross(hi) == 0;
    assert TrianglePoints(lo, cur) == LinePoints(xa, ya, xb, yb, cur);
    assert TrianglePoints(hi, cur) == LinePoints(xa, ya, xb, yb, cur);
    if y0 == y1 {
      HorizontalMember(xa, xb, ya, cur, p);
    } else {
      VerticalMember(xa, ya, yb, cur, p);
    }
  }

  /** The edge tests of the two halves of a dx by dy box at offset (u, v)
      from its first corner: the lower half's edge values are dx v, dy (dx - u)
      and dy u - dx v, the upper half's -(dy u), dx (v - dy) and the same diagonal. */
  predicate InHalves(dx: int, dy: int, u: int, v: int)
  {
    var a1, b1, c, a2, b2 := dx * v, dy * (dx - u), dy * u - dx * v, -(dy * u), dx * (v - dy);
    (a1 >= 0 && b1 >= 0 && c >= 0) || (a1 <= 0 && b1 <= 0 && c <= 0) ||
    (a2 >= 0 && b2 >= 0 && c >= 0) || (a2 <= 0 && b2 <= 0 && c <= 0)
  }

  /** Reflecting a box across an axis negates every edge value, which the
      tests do not see. */
  lemma HalvesSigned(dx: int, dy: int, u: int, v: int)
    requires dx != 0 && dy != 0
    ensures InHalves(dx, dy, u, v) <==> Between(0, dx, u) && Between(0, dy, v)
    decreases (if dx < 0 then 1 else 0) + (if dy < 0 then 1 else 0)
  {
    if dx < 0 {
      HalvesSigned(-dx, dy, -u, v);
      assert (-dx) * v == -(dx * v) && dy * (-dx - -u) == -(dy * (dx - u));
      assert dy * (-u) - (-dx) * v == -(dy * u - dx * v) && (-dx) * (v - dy) == -(dx * (v - dy));
    } else if dy < 0 {
      HalvesSigned(dx, -dy, u, -v);
      assert dx * (-v) == -(dx * v) && (-dy) * (dx - u) == -(dy * (dx - u));
      assert (-dy) * u - dx * (-v) == -(dy * u - dx * v) && dx * (-v - -dy) == -(dx * (v - dy));
    } else {
      HalvesPositive(dx, dy, u, v);
    }
  }

  lemma MulNonzero(u: int, v: int)
    requires u != 0 && v != 0
    ensures u * v != 0
  {
    var a, b := if u > 0 then u else -u, if v > 0 then v else -v;
    MulPos(a, b);
    assert a * b == u * v || a * b == -(u * v);
  }

  lemma MulPos(u: int, v: int)
    requires u > 0 && v > 0
    ensures u * v > 0
  {
  }

  /** k z has the sign of z when k is positive. */
  lemma SignOf(k: int, z: int)
    requires k > 0
    ensures k * z >= 0 <==> z >= 0
    ensures k * z <= 0 <==> z <= 0
  {
    if z > 0 {
      MulPos(k, z);
    } else if z < 0 {
      MulPos(k, -z);
    }
  }

  /** A product bounded by k m, with k positive, has its other factor bounded by m. */
  lemma FactorBound(k: int, z: int, m: int)
    requires k > 0 && k * z <= k * m
    ensures z <= m
  {
    if z > m {
      MulPos(k, z - m);
    }
  }

  /** For a box that extends right and down, the tests pass exactly inside it. */
  lemma HalvesPositive(dx: int, dy: int, u: int, v: int)
    requires dx > 0 && dy > 0
    ensures InHalves(dx, dy, u, v) <==> 0 <= u <= dx && 0 <= v <= dy
  {
    var a1, b1, c, a2, b2 := dx * v, dy * (dx - u), dy * u - dx * v, -(dy * u), dx * (v - dy);
    SignOf(dx, v);
    SignOf(dy, dx - u);
    SignOf(dy, u);
    SignOf(dx, v - dy);
    assert dy * (dx - u) == dy * dx - dy * u && dx * (v - dy) == dx * v - dx * dy;
    MulPos(dx, dy);
    if 0 <= u <= dx && 0 <= v <= dy {
      assert (c >= 0 && a1 >= 0 && b1 >= 0) || (c < 0 && a2 <= 0 && b2 <= 0);
    } else {
      if (a1 >= 0 && b1 >= 0 && c >= 0) {
        // v >= 0, u <= dx, dx v <= dy u <= dy dx
        FactorBound(dx, v, dy);
      }
      if (a2 <= 0 && b2 <= 0 && c <= 0) {
        // u >= 0, v <= dy, dy u <= dx v <= dx dy
        FactorBound(dy, u, dx);
      }
    }
  }

  /** A box from corner lo to corner hi, given back to front on either axis
      or not, painted as two right triangles: below its diagonal, then above. */
  function Halves(lo: Point, hi: Point, cur: Point): seq<Point>
  {
    TrianglePoints(LowerHalf(lo.x, lo.y, hi.x, hi.y), cur) + TrianglePoints(UpperHalf(lo.x, lo.y, hi.x, hi.y), cur)
  }

  /** Two __paint_triangle calls that fill the box from lo to hi. */
  method PaintHalves(d: Device, lo: Point, hi: Point, color: Color) returns (out: seq<Write>)
    ensures out == Emit(d, Halves(lo, hi, d.cursor), color)
  {
    var a := PaintTriangle(d, lo.x, lo.y, hi.x, lo.y, hi.x, hi.y, color);
    var b := PaintTriangle(d, lo.x, lo.y, lo.x, hi.y, hi.x, hi.y, color);
    out := a + b;
    EmitAppend(d, TrianglePoints(LowerHalf(lo.x, lo.y, hi.x, hi.y), d.cursor), TrianglePoints(UpperHalf(lo.x, lo.y, hi.x, hi.y), d.cursor), color);
  }

  /** The two halves together paint exactly the box from lo to hi. */
  lemma HalvesMember(lo: Point, hi: Point, cur: Point, p: Point)
    ensures p in Halves(lo, hi, cur) <==> Between(lo.x, hi.x, p.x) && Between(lo.y, hi.y, p.y)
  {
    InAppend(TrianglePoints(LowerHalf(lo.x, lo.y, hi.x, hi.y), cur), TrianglePoints(UpperHalf(lo.x, lo.y, hi.x, hi.y), cur), p);
    HalvesCoverBox(lo.x, lo.y, hi.x, hi.y, cur, p);
  }
}
