/** The bounding-box scan shared by the triangle rasteriser: the points of a
    box, row by row and left to right within a row, that a pixel test accepts,
    and the callbacks that painting them makes. */
module Scan {
  import opened GfxHeader
  import opened Sink

  /** The first n columns from x0 of row y that `keep` accepts. */
  function RowPoints(keep: Point -> bool, x0: int, n: nat, y: int): seq<Point>
  {
    if n == 0 then []
    else RowPoints(keep, x0, n - 1, y) + (if keep(Point(x0 + n - 1, y)) then [Point(x0 + n - 1, y)] else [])
  }

  /** The accepted points of the first m rows from y0 of the box n columns wide from x0. */
  function BoxPoints(keep: Point -> bool, x0: int, n: nat, y0: int, m: nat): seq<Point>
  {
    if m == 0 then [] else BoxPoints(keep, x0, n, y0, m - 1) + RowPoints(keep, x0, n, y0 + m - 1)
  }

  /** The callbacks for the accepted points among the first n columns from x0 of row y. */
  function RowWrites(d: Device, keep: Point -> bool, x0: int, n: nat, y: int, c: Color): seq<Write>
  {
    if n == 0 then []
    else RowWrites(d, keep, x0, n - 1, y, c) +
         (if keep(Point(x0 + n - 1, y)) then Plot(d, Point(x0 + n - 1, y), c) else [])
  }

  /** The callbacks of the scan of the first m rows from y0: those of the accepted points, in scan order. */
  function BoxWrites(d: Device, keep: Point -> bool, x0: int, n: nat, y0: int, m: nat, c: Color): seq<Write>
  {
    Emit(d, BoxPoints(keep, x0, n, y0, m), c)
  }

  /** Scanning a row makes the callbacks of its accepted points. */
  lemma {:induction false} RowWritesEmit(d: Device, keep: Point -> bool, x0: int, n: nat, y: int, c: Color)
    ensures RowWrites(d, keep, x0, n, y, c) == Emit(d, RowPoints(keep, x0, n, y), c)
  {
    if n > 0 {
      RowWritesEmit(d, keep, x0, n - 1, y, c);
      if keep(Point(x0 + n - 1, y)) {
        EmitSnoc(d, RowPoints(keep, x0, n - 1, y), Point(x0 + n - 1, y), c);
      } else {
        assert RowPoints(keep, x0, n, y) == RowPoints(keep, x0, n - 1, y);
      }
    }
  }

  /** Scanning one more row, y, the m-th from y0, appends that row's callbacks. */
  lemma BoxWritesStep(d: Device, keep: Point -> bool, x0: int, n: nat, y0: int, m: nat, y: int, c: Color)
    requires y == y0 + m
    ensures BoxWrites(d, keep, x0, n, y0, m + 1, c) == BoxWrites(d, keep, x0, n, y0, m, c) + RowWrites(d, keep, x0, n, y, c)
  {
    var above, row := BoxPoints(keep, x0, n, y0, m), RowPoints(keep, x0, n, y);
    assert BoxPoints(keep, x0, n, y0, m + 1) == above + row;
    RowWritesEmit(d, keep, x0, n, y, c);
    EmitAppend(d, above, row, c);
  }

  /** Two tests that agree everywhere accept the same points. */
  lemma {:induction false} BoxPointsSame(f: Point -> bool, g: Point -> bool, x0: int, n: nat, y0: int, m: nat)
    requires forall p :: f(p) == g(p)
    ensures BoxPoints(f, x0, n, y0, m) == BoxPoints(g, x0, n, y0, m)
  {
    if m > 0 {
      BoxPointsSame(f, g, x0, n, y0, m - 1);
      RowPointsSame(f, g, x0, n, y0 + m - 1);
    }
  }

  lemma {:induction false} RowPointsSame(f: Point -> bool, g: Point -> bool, x0: int, n: nat, y: int)
    requires forall p :: f(p) == g(p)
    ensures RowPoints(f, x0, n, y) == RowPoints(g, x0, n, y)
  {
    if n > 0 {
      RowPointsSame(f, g, x0, n - 1, y);
    }
  }

  /** A point is in a row scan exactly when it lies in the row's span and passes the test. */
  lemma {:induction false} RowPointsMember(keep: Point -> bool, x0: int, n: nat, y: int, p: Point)
    ensures p in RowPoints(keep, x0, n, y) <==> p.y == y && x0 <= p.x < x0 + n && keep(p)
  {
    if n > 0 {
      RowPointsMember(keep, x0, n - 1, y, p);
    }
  }

  /** A point is in a box scan exactly when it lies in the box and passes the test. */
  lemma BoxPointsMember(keep: Point -> bool, x0: int, n: nat, y0: int, m: nat, p: Point)
    ensures p in BoxPoints(keep, x0, n, y0, m) <==> x0 <= p.x < x0 + n && y0 <= p.y < y0 + m && keep(p)
  {
    BoxPointsOrdered(keep, x0, n, y0, m);
    if x0 <= p.x < x0 + n && y0 <= p.y < y0 + m && keep(p) {
      BoxPointsHas(keep, x0, n, y0, m, p);
    }
  }

  lemma {:induction false} BoxPointsHas(keep: Point -> bool, x0: int, n: nat, y0: int, m: nat, p: Point)
    requires x0 <= p.x < x0 + n && y0 <= p.y < y0 + m && keep(p)
    ensures p in BoxPoints(keep, x0, n, y0, m)
  {
    var y := y0 + m - 1;
    var a, b := BoxPoints(keep, x0, n, y0, m - 1), RowPoints(keep, x0, n, y);
    assert BoxPoints(keep, x0, n, y0, m) == a + b;
    if p.y == y {
      RowPointsMember(keep, x0, n, y, p);
      assert p in b;
    } else {
      BoxPointsHas(keep, x0, n, y0, m - 1, p);
      assert p in a;
    }
    InAppend(a, b, p);
  }

  lemma InAppend(a: seq<Point>, b: seq<Point>, p: Point)
    ensures p in a + b <==> p in a || p in b
  {
  }

  lemma InFour(a: seq<Point>, b: seq<Point>, e: seq<Point>, f: seq<Point>, p: Point)
    ensures p in a + b + e + f <==> p in a || p in b || p in e || p in f
  {
    InAppend(a + b + e, f, p);
    InAppend(a + b, e, p);
    InAppend(a, b, p);
  }

  /** p comes strictly before q in row-major order: an earlier row, or the
      same row further left. */
  predicate Before(p: Point, q: Point)
  {
    p.y < q.y || (p.y == q.y && p.x < q.x)
  }

  /** Every point comes strictly before every later one, so none repeats. */
  predicate RowMajor(s: seq<Point>)
  {
    forall i, j :: 0 <= i < j < |s| ==> Before(s[i], s[j])
  }

  /** A row scan visits its points left to right and stays inside its span. */
  lemma {:induction false} RowPointsOrdered(keep: Point -> bool, x0: int, n: nat, y: int)
    ensures RowMajor(RowPoints(keep, x0, n, y))
    ensures forall q <- RowPoints(keep, x0, n, y) :: q.y == y && x0 <= q.x < x0 + n && keep(q)
  {
    if n > 0 {
      RowPointsOrdered(keep, x0, n - 1, y);
    }
  }

  /** A box scan visits its points in strictly increasing row-major order,
      so it paints no pixel twice. */
  lemma {:induction false} BoxPointsOrdered(keep: Point -> bool, x0: int, n: nat, y0: int, m: nat)
    ensures RowMajor(BoxPoints(keep, x0, n, y0, m))
    ensures forall q <- BoxPoints(keep, x0, n, y0, m) :: x0 <= q.x < x0 + n && y0 <= q.y < y0 + m && keep(q)
  {
    if m > 0 {
      BoxPointsOrdered(keep, x0, n, y0, m - 1);
      RowPointsOrdered(keep, x0, n, y0 + m - 1);
      var a, b := BoxPoints(keep, x0, n, y0, m - 1), RowPoints(keep, x0, n, y0 + m - 1);
      forall i, j | 0 <= i < j < |a + b|
        ensures Before((a + b)[i], (a + b)[j])
      {
        if j < |a| {
          assert (a + b)[i] == a[i] && (a + b)[j] == a[j];
        } else if i < |a| {
          assert (a + b)[i] == a[i] && (a + b)[j] == b[j - |a|];
          assert a[i] in a && b[j - |a|] in b;
        } else {
          assert (a + b)[i] == b[i - |a|] && (a + b)[j] == b[j - |a|];
        }
      }
    }
  }

  /** A row-major sequence holds no point twice. */
  lemma RowMajorDistinct(s: seq<Point>, i: int, j: int)
    requires RowMajor(s) && 0 <= i < |s| && 0 <= j < |s| && i != j
    ensures s[i] != s[j]
  {
  }
}
