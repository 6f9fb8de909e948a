// What the pixels chosen by __paint_line (lib/src/gfx.c:140-234) look like:
// where every run starts and ends, how far it strays from the ideal line, and
// that the endpoint order does not matter.

module LineFacts {
  import opened Arith
  import opened Sink
  import opened Line

  /** A horizontal run holds x1 - x0 + 1 pixels, left to right on row y. */
  lemma {:induction false} HRunPixels(x0: int, x1: int, y: int)
    ensures |HRun(x0, x1, y)| == if x1 < x0 then 0 else x1 - x0 + 1
    ensures forall i :: 0 <= i < |HRun(x0, x1, y)| ==> HRun(x0, x1, y)[i] == Point(x0 + i, y)
    decreases x1 - x0
  {
    if x0 <= x1 {
      HRunPixels(x0, x1 - 1, y);
    }
  }

  /** A point is on a horizontal run exactly when it is on its row between its ends. */
  lemma HRunMember(x0: int, x1: int, y: int, p: Point)
    ensures p in HRun(x0, x1, y) <==> x0 <= p.x <= x1 && p.y == y
  {
    HRunPixels(x0, x1, y);
    if x0 <= p.x <= x1 && p.y == y {
      assert HRun(x0, x1, y)[p.x - x0] == p;
    }
  }

  /** A vertical run holds y1 - y0 + 1 pixels, top to bottom in column x. */
  lemma {:induction false} VRunPixels(x: int, y0: int, y1: int)
    ensures |VRun(x, y0, y1)| == if y1 < y0 then 0 else y1 - y0 + 1
    ensures forall i :: 0 <= i < |VRun(x, y0, y1)| ==> VRun(x, y0, y1)[i] == Point(x, y0 + i)
    decreases y1 - y0
  {
    if y0 <= y1 {
      VRunPixels(x, y0, y1 - 1);
    }
  }

  /** The k-th pixel of an x-driven run sits in column xs + k, Step(k) rows from ys. */
  lemma {:induction false} XRunPixels(xs: int, ys: int, down: bool, mx: int, my: int, n: nat)
    requires 0 < my <= mx
    ensures |XRun(xs, ys, down, mx, my, n)| == n
    ensures forall k :: 0 <= k < n ==>
              XRun(xs, ys, down, mx, my, n)[k] == Point(xs + k, Toward(ys, down, Step(k, mx, my)))
  {
    if n > 0 {
      XRunPixels(xs, ys, down, mx, my, n - 1);
      BresIsStep(n - 1, mx, my);
    }
  }

  /** Iteration k of a y-driven run paints its pixel in row ys + k, Step(k) columns
      from xs, at position 2k, and then the cursor at position 2k + 1. */
  lemma {:induction false} YRunPixels(xs: int, ys: int, down: bool, my: int, mx: int, cur: Point, n: nat)
    requires 0 < mx <= my
    ensures |YRun(xs, ys, down, my, mx, cur, n)| == 2 * n
    ensures forall j :: 0 <= j < 2 * n ==>
              YRun(xs, ys, down, my, mx, cur, n)[j] ==
                if j % 2 == 0 then Point(Toward(xs, down, Step(j / 2, my, mx)), ys + j / 2) else cur
  {
    if n > 0 {
      YRunPixels(xs, ys, down, my, mx, cur, n - 1);
      BresIsStep(n - 1, my, mx);
    }
  }

  /** The offset t from `from` toward `to`, scaled by `major`, differs from the
      k-th step of the ideal line by exactly as much as the unsigned offset does. */
  lemma TowardScaled(from: int, to: int, down: bool, t: int, k: int, major: int, minor: int)
    requires to == Toward(from, down, minor)
    ensures Abs((Toward(from, down, t) - from) * major - k * (to - from)) == Abs(t * major - k * minor)
  {
    if down {
      assert (Toward(from, down, t) - from) * major == -(t * major);
      assert k * (to - from) == -(k * minor);
    }
  }

  /** An x-driven run between (xs, ys) and (xe, ye), xs < xe, |ye - ys| < xe - xs,
      paints one pixel per column from xs to xe, starting and ending on the endpoints. */
  lemma XRunEnds(xs: int, ys: int, xe: int, ye: int)
    requires xs < xe && ys != ye && Abs(ye - ys) < xe - xs
    ensures var pts := XRun(xs, ys, ys > ye, xe - xs, Abs(ye - ys), xe - xs + 1);
            |pts| == xe - xs + 1 && pts[0] == Point(xs, ys) && pts[|pts| - 1] == Point(xe, ye) &&
            forall i :: 0 <= i < |pts| ==> pts[i].x == xs + i
  {
    XRunPixels(xs, ys, ys > ye, xe - xs, Abs(ye - ys), xe - xs + 1);
    StepEnds(xe - xs, Abs(ye - ys));
  }

  /** Every pixel of that run lies between the endpoint rows and less than one row
      from the ideal line through the endpoints (measured along y and scaled by
      xe - xs), and neighbouring pixels are at most one row apart. */
  lemma XRunNear(xs: int, ys: int, xe: int, ye: int)
    requires xs < xe && ys != ye && Abs(ye - ys) < xe - xs
    ensures var pts := XRun(xs, ys, ys > ye, xe - xs, Abs(ye - ys), xe - xs + 1);
            (forall i :: 0 <= i < |pts| ==>
               (if ys < ye then ys else ye) <= pts[i].y <= (if ys < ye then ye else ys) &&
               Abs((pts[i].y - ys) * (xe - xs) - i * (ye - ys)) < xe - xs) &&
            (forall i :: 0 < i < |pts| ==> Abs(pts[i].y - pts[i - 1].y) <= 1)
  {
    var down, mx, my := ys > ye, xe - xs, Abs(ye - ys);
    var pts := XRun(xs, ys, down, mx, my, mx + 1);
    XRunPixels(xs, ys, down, mx, my, mx + 1);
    forall i | 0 <= i < |pts|
      ensures (if ys < ye then ys else ye) <= pts[i].y <= (if ys < ye then ye else ys)
      ensures Abs((pts[i].y - ys) * mx - i * (ye - ys)) < mx
    {
      RowNear(ys, ye, down, i, mx, my);
    }
    forall i | 0 < i < |pts|
      ensures Abs(pts[i].y - pts[i - 1].y) <= 1
    {
      StepIncrement(i - 1, mx, my);
    }
  }

  /** The row of column i of that run lies between the endpoint rows and less
      than one row from the ideal line. */
  lemma RowNear(ys: int, ye: int, down: bool, i: int, mx: int, my: int)
    requires 0 < my <= mx && 0 <= i <= mx && down == (ys > ye) && my == Abs(ye - ys)
    ensures (if ys < ye then ys else ye) <= Toward(ys, down, Step(i, mx, my)) <= (if ys < ye then ye else ys)
    ensures Abs((Toward(ys, down, Step(i, mx, my)) - ys) * mx - i * (ye - ys)) < mx
  {
    StepWithin(i, mx, my);
    TowardScaled(ys, ye, down, Step(i, mx, my), i, mx, my);
  }

  /** A y-driven run between (xs, ys) and (xe, ye), ys < ye, |xe - xs| <= ye - ys:
      iteration k paints row ys + k, the first from the first endpoint and the last
      on the second, and every odd position is the cursor. */
  lemma YRunEnds(xs: int, ys: int, xe: int, ye: int, cur: Point)
    requires ys < ye && xs != xe && Abs(xe - xs) <= ye - ys
    ensures var pts := YRun(xs, ys, xs > xe, ye - ys, Abs(xe - xs), cur, ye - ys + 1);
            |pts| == 2 * (ye - ys + 1) && pts[0] == Point(xs, ys) && pts[|pts| - 2] == Point(xe, ye) &&
            (forall j :: 0 <= j < |pts| ==> if j % 2 == 0 then pts[j].y == ys + j / 2 else pts[j] == cur)
  {
    var down, my, mx := xs > xe, ye - ys, Abs(xe - xs);
    YRunPixels(xs, ys, down, my, mx, cur, my + 1);
    StepEnds(my, mx);
    assert (2 * my) / 2 == my;
  }

  /** Every pixel of that run lies between the endpoint columns and less than one
      column from the ideal line (measured along x and scaled by ye - ys). */
  lemma YRunNear(xs: int, ys: int, xe: int, ye: int, cur: Point)
    requires ys < ye && xs != xe && Abs(xe - xs) <= ye - ys
    ensures var pts := YRun(xs, ys, xs > xe, ye - ys, Abs(xe - xs), cur, ye - ys + 1);
            forall j :: 0 <= j < |pts| && j % 2 == 0 ==>
              (if xs < xe then xs else xe) <= pts[j].x <= (if xs < xe then xe else xs) &&
              Abs((pts[j].x - xs) * (ye - ys) - (j / 2) * (xe - xs)) < ye - ys
  {
    var down, my, mx := xs > xe, ye - ys, Abs(xe - xs);
    var pts := YRun(xs, ys, down, my, mx, cur, my + 1);
    YRunPixels(xs, ys, down, my, mx, cur, my + 1);
    forall j | 0 <= j < |pts| && j % 2 == 0
      ensures (if xs < xe then xs else xe) <= pts[j].x <= (if xs < xe then xe else xs)
      ensures Abs((pts[j].x - xs) * my - (j / 2) * (xe - xs)) < my
    {
      StepWithin(j / 2, my, mx);
      TowardScaled(xs, xe, down, Step(j / 2, my, mx), j / 2, my, mx);
    }
  }

  /** The pixels painted for neighbouring rows are at most one column apart. */
  lemma YRunConnected(xs: int, ys: int, xe: int, ye: int, cur: Point)
    requires ys < ye && xs != xe && Abs(xe - xs) <= ye - ys
    ensures var pts := YRun(xs, ys, xs > xe, ye - ys, Abs(xe - xs), cur, ye - ys + 1);
            forall j :: 2 <= j < |pts| && j % 2 == 0 ==> Abs(pts[j].x - pts[j - 2].x) <= 1
  {
    var down, my, mx := xs > xe, ye - ys, Abs(xe - xs);
    var pts := YRun(xs, ys, down, my, mx, cur, my + 1);
    YRunPixels(xs, ys, down, my, mx, cur, my + 1);
    forall j | 2 <= j < |pts| && j % 2 == 0
      ensures Abs(pts[j].x - pts[j - 2].x) <= 1
    {
      assert (j - 2) % 2 == 0 && (j - 2) / 2 == j / 2 - 1;
      StepIncrement(j / 2 - 1, my, mx);
    }
  }

  /** Drawing from either end chooses the same pixels in the same order: the
      rasteriser always walks from the end with the smaller coordinate on the
      driving axis. */
  lemma LineSymmetric(x0: int, y0: int, x1: int, y1: int, cur: Point)
    ensures LinePoints(x0, y0, x1, y1, cur) == LinePoints(x1, y1, x0, y0, cur)
  {
    if x0 != x1 && y0 != y1 {
      DiagonalSymmetric(x0, y0, x1, y1, cur);
    }
  }

  lemma DiagonalSymmetric(x0: int, y0: int, x1: int, y1: int, cur: Point)
    requires x0 != x1 && y0 != y1
    ensures DiagonalPoints(x0, y0, x1, y1, cur) == DiagonalPoints(x1, y1, x0, y0, cur)
  {
    if Abs(x1 - x0) > Abs(y1 - y0) {
      if x1 < x0 {
        XDiagonalFrom(x0, y0, x1, y1, cur);
      } else {
        XDiagonalFrom(x1, y1, x0, y0, cur);
      }
    } else {
      if y1 < y0 {
        YDiagonalFrom(x0, y0, x1, y1, cur);
      } else {
        YDiagonalFrom(x1, y1, x0, y0, cur);
      }
    }
  }

  /** Both orders of an x-driven line are walked from its left end (x1, y1). */
  lemma XDiagonalFrom(x0: int, y0: int, x1: int, y1: int, cur: Point)
    requires x1 < x0 && y0 != y1 && Abs(x1 - x0) > Abs(y1 - y0)
    ensures DiagonalPoints(x0, y0, x1, y1, cur) == XRun(x1, y1, y1 > y0, x0 - x1, Abs(y0 - y1), x0 - x1 + 1)
    ensures DiagonalPoints(x1, y1, x0, y0, cur) == XRun(x1, y1, y1 > y0, x0 - x1, Abs(y0 - y1), x0 - x1 + 1)
  {
  }

  /** Both orders of a y-driven line are walked from its upper end (x1, y1). */
  lemma YDiagonalFrom(x0: int, y0: int, x1: int, y1: int, cur: Point)
    requires x0 != x1 && y1 < y0 && Abs(x1 - x0) <= Abs(y1 - y0)
    ensures DiagonalPoints(x0, y0, x1, y1, cur) == YRun(x1, y1, x1 > x0, y0 - y1, Abs(x0 - x1), cur, y0 - y1 + 1)
    ensures DiagonalPoints(x1, y1, x0, y0, cur) == YRun(x1, y1, x1 > x0, y0 - y1, Abs(x0 - x1), cur, y0 - y1 + 1)
  {
  }

  /** A line at 45 degrees down and to the right, from (x0, y0) to (x1, y1), is
      y-driven: iteration i paints (x0 + i, y0 + i) and then the cursor. */
  lemma SlopeOneLine(x0: int, y0: int, x1: int, y1: int, cur: Point)
    requires x1 - x0 == y1 - y0 > 0
    ensures var pts := LinePoints(x0, y0, x1, y1, cur);
            |pts| == 2 * (x1 - x0 + 1) &&
            forall i :: 0 <= i <= x1 - x0 ==> pts[2 * i] == Point(x0 + i, y0 + i) && pts[2 * i + 1] == cur
  {
    var k := x1 - x0;
    var pts := YRun(x0, y0, false, k, k, cur, k + 1);
    assert LinePoints(x0, y0, x1, y1, cur) == pts;
    YRunPixels(x0, y0, false, k, k, cur, k + 1);
    forall i | 0 <= i <= k
      ensures pts[2 * i] == Point(x0 + i, y0 + i) && pts[2 * i + 1] == cur
    {
      assert (2 * i) % 2 == 0 && (2 * i) / 2 == i && (2 * i + 1) % 2 == 1;
      assert i * k <= (i + 1) * k - 1 < (i + 1) * k;
      DivFromBounds((i + 1) * k - 1, k, i);
    }
  }

  /** Such a line paints exactly the pixels of the diagonal and the cursor. */
  lemma SlopeOneMember(x0: int, y0: int, x1: int, y1: int, cur: Point, p: Point)
    requires x1 - x0 == y1 - y0 > 0
    ensures p in LinePoints(x0, y0, x1, y1, cur) <==> p == cur || (p.x - x0 == p.y - y0 && x0 <= p.x <= x1)
  {
    var pts := LinePoints(x0, y0, x1, y1, cur);
    SlopeOneLine(x0, y0, x1, y1, cur);
    if p in pts {
      var j :| 0 <= j < |pts| && pts[j] == p;
      var i := j / 2;
      assert j == 2 * i || j == 2 * i + 1;
    }
    if p == cur {
      assert pts[2 * 0 + 1] == p;
    } else if p.x - x0 == p.y - y0 && x0 <= p.x <= x1 {
      assert pts[2 * (p.x - x0)] == p;
    }
  }

  /** A point is on a vertical run exactly when it is in its column between its ends. */
  lemma VRunMember(x: int, y0: int, y1: int, p: Point)
    ensures p in VRun(x, y0, y1) <==> p.x == x && y0 <= p.y <= y1
  {
    VRunPixels(x, y0, y1);
    if p.x == x && y0 <= p.y <= y1 {
      assert VRun(x, y0, y1)[p.y - y0] == p;
    }
  }

  /** A horizontal line, in either direction, paints exactly the pixels of its
      row between its ends. */
  lemma HorizontalMember(x0: int, x1: int, y: int, cur: Point, p: Point)
    ensures p in LinePoints(x0, y, x1, y, cur) <==>
              p.y == y && (if x0 <= x1 then x0 else x1) <= p.x <= (if x0 <= x1 then x1 else x0)
  {
    if x0 < x1 {
      HRunMember(x0, x1, y, p);
    } else if x1 < x0 {
      HRunMember(x1, x0, y, p);
    }
  }

  /** A vertical line, in either direction, paints exactly the pixels of its
      column between its ends. */
  lemma VerticalMember(x: int, y0: int, y1: int, cur: Point, p: Point)
    ensures p in LinePoints(x, y0, x, y1, cur) <==>
              p.x == x && (if y0 <= y1 then y0 else y1) <= p.y <= (if y0 <= y1 then y1 else y0)
  {
    if y0 < y1 {
      VRunMember(x, y0, y1, p);
    } else if y1 < y0 {
      VRunMember(x, y1, y0, p);
    }
  }

  /** Lines are inclusive: both endpoints are painted, whatever their order. */
  lemma LineHasEnds(x0: int, y0: int, x1: int, y1: int, cur: Point)
    ensures Point(x0, y0) in LinePoints(x0, y0, x1, y1, cur)
    ensures Point(x1, y1) in LinePoints(x0, y0, x1, y1, cur)
  {
    if x0 == x1 {
      VerticalMember(x0, y0, y1, cur, Point(x0, y0));
      VerticalMember(x0, y0, y1, cur, Point(x1, y1));
    } else if y0 == y1 {
      HorizontalMember(x0, x1, y0, cur, Point(x0, y0));
      HorizontalMember(x0, x1, y0, cur, Point(x1, y1));
    } else {
      DiagonalHasEnds(x0, y0, x1, y1, cur);
    }
  }

  lemma DiagonalHasEnds(x0: int, y0: int, x1: int, y1: int, cur: Point)
    requires x0 != x1 && y0 != y1
    ensures Point(x0, y0) in DiagonalPoints(x0, y0, x1, y1, cur)
    ensures Point(x1, y1) in DiagonalPoints(x0, y0, x1, y1, cur)
  {
    if Abs(x1 - x0) > Abs(y1 - y0) {
      if x1 < x0 {
        XDiagonalFrom(x0, y0, x1, y1, cur);
        XRunEnds(x1, y1, x0, y0);
      } else {
        XDiagonalFrom(x1, y1, x0, y0, cur);
        XRunEnds(x0, y0, x1, y1);
      }
      var pts := DiagonalPoints(x0, y0, x1, y1, cur);
      assert pts[0] in pts && pts[|pts| - 1] in pts;
    } else {
      if y1 < y0 {
        YDiagonalFrom(x0, y0, x1, y1, cur);
        YRunEnds(x1, y1, x0, y0, cur);
      } else {
        YDiagonalFrom(x1, y1, x0, y0, cur);
        YRunEnds(x0, y0, x1, y1, cur);
      }
      var pts := DiagonalPoints(x0, y0, x1, y1, cur);
      assert pts[0] in pts && pts[|pts| - 2] in pts;
    }
  }

  /** A line along a row is the run between its ends, walked left to right
      whichever end is given first. */
  lemma HorizontalRun(x0: int, x1: int, y: int, cur: Point)
    ensures LinePoints(x0, y, x1, y, cur) == if x0 <= x1 then HRun(x0, x1, y) else HRun(x1, x0, y)
  {
    if x0 == x1 {
      assert HRun(x0, x1, y) == HRun(x0, x0 - 1, y) + [Point(x0, y)];
    }
  }

  /** A line along a column is the run between its ends, walked top to bottom
      whichever end is given first. */
  lemma VerticalRun(x: int, y0: int, y1: int, cur: Point)
    ensures LinePoints(x, y0, x, y1, cur) == if y0 <= y1 then VRun(x, y0, y1) else VRun(x, y1, y0)
  {
    if y0 == y1 {
      assert VRun(x, y0, y1) == VRun(x, y0, y0 - 1) + [Point(x, y0)];
    }
  }
}
