// The circle-quadrant rasteriser __paint_quadrant (lib/src/gfx.c:262-325): an
// integer walk along one octant of a circle of radius r about (x0, y0), each
// step reflected into the corners selected by the `quad` bit field, drawn as an
// outline or filled with horizontal spans.

module Quadrant {
  import opened GfxHeader
  import opened Arith
  import opened Sink
  import opened Line
  import opened LineFacts

  /** The corners `quad` selects, one bit each. The display's y grows
      downwards, so bit 1 (+x, +y) is the lower right corner. */
  datatype Corner = SouthEast | SouthWest | NorthWest | NorthEast

  function Bit(k: Corner): bv32
  {
    match k
    case SouthEast => 1
    case SouthWest => 2
    case NorthWest => 4
    case NorthEast => 8
  }

  /** The state of the walk: the octant point (x, y) and the decision term err. */
  datatype Arc = Arc(x: int, y: int, err: int)

  /** One step: move down a row while the error allows it, otherwise in a column. */
  function Next(a: Arc): Arc
  {
    if a.err <= 0 then Arc(a.x, a.y + 1, a.err + 2 * (a.y + 1) + 1)
    else Arc(a.x - 1, a.y, a.err - (2 * (a.x - 1) + 1))
  }

  /** The state at the start of iteration n: the walk starts at (r, 0) with err 0. */
  function Visit(r: int, n: nat): Arc
  {
    if n == 0 then Arc(r, 0, 0) else Next(Visit(r, n - 1))
  }

  /** How many times the loop body runs: every step shrinks x - y by one, and
      the loop runs while x >= y. */
  function Sweeps(r: int): nat
  {
    if r < 0 then 0 else r + 1
  }

  /** What holds at every visit: err is x^2 + (y + 1)^2 - 1 - r^2, it stays
      within [-2x, 2y + 1], y is never negative and x never exceeds r. */
  predicate OnTrack(r: int, a: Arc)
  {
    a.err == a.x * a.x + (a.y + 1) * (a.y + 1) - 1 - r * r &&
    -2 * a.x <= a.err <= 2 * a.y + 1 &&
    0 <= a.y && a.x <= r
  }

  /** A step taken while x >= y keeps the walk on track. */
  lemma NextOnTrack(r: int, a: Arc)
    requires OnTrack(r, a) && a.x >= a.y
    ensures OnTrack(r, Next(a))
  {
    if a.err <= 0 {
      assert (a.y + 2) * (a.y + 2) == (a.y + 1) * (a.y + 1) + 2 * (a.y + 1) + 1;
    } else {
      assert (a.x - 1) * (a.x - 1) == a.x * a.x - 2 * (a.x - 1) - 1;
    }
  }

  /** x - y falls by one per step and the walk stays on track up to the exit. */
  lemma {:induction false} VisitInvariant(r: int, n: nat)
    requires 0 <= r && n <= Sweeps(r)
    ensures Visit(r, n).x - Visit(r, n).y == r - n
    ensures OnTrack(r, Visit(r, n))
  {
    if n > 0 {
      VisitInvariant(r, n - 1);
      NextOnTrack(r, Visit(r, n - 1));
    }
  }

  /** The loop body runs exactly Sweeps(r) times: x >= y at every earlier visit
      and x < y at visit Sweeps(r). */
  lemma SweepCount(r: int)
    ensures forall n: nat :: n < Sweeps(r) ==> Visit(r, n).x >= Visit(r, n).y
    ensures Visit(r, Sweeps(r)).x < Visit(r, Sweeps(r)).y
  {
    forall n: nat | n < Sweeps(r)
      ensures Visit(r, n).x >= Visit(r, n).y
    {
      VisitInvariant(r, n);
    }
    if r >= 0 {
      VisitInvariant(r, Sweeps(r));
    }
  }

  /** (dx, dy) lies within squared distance rr of the centre. */
  predicate InDisc(dx: int, dy: int, rr: int)
  {
    dx * dx + dy * dy <= rr
  }

  /** (dx, dy) is less than one pixel per axis inside the rim of squared
      radius rr: one step further out along both axes leaves the disc. */
  predicate NearRim(dx: int, dy: int, rr: int)
  {
    rr < (Abs(dx) + 1) * (Abs(dx) + 1) + (Abs(dy) + 1) * (Abs(dy) + 1)
  }

  /** Every visited point lies in the octant 0 <= y <= x <= r, inside the circle
      of squared radius r^2 + 1, and no further than one pixel in each axis from
      its rim. */
  lemma VisitOnRim(r: int, n: nat)
    requires n < Sweeps(r)
    ensures 0 <= Visit(r, n).y <= Visit(r, n).x <= r
    ensures InDisc(Visit(r, n).x, Visit(r, n).y, r * r + 1)
    ensures NearRim(Visit(r, n).x, Visit(r, n).y, r * r + 1)
  {
    VisitInvariant(r, n);
    var a := Visit(r, n);
    SquareSucc(a.x);
    SquareSucc(a.y);
    RimFromTrack(a.x, a.y, a.err, a.x * a.x, a.y * a.y, r * r, (a.x + 1) * (a.x + 1), (a.y + 1) * (a.y + 1));
  }

  lemma SquareSucc(v: int)
    ensures (v + 1) * (v + 1) == v * v + 2 * v + 1
  {
  }

  /** The error bounds of OnTrack, with the squares as plain numbers. */
  lemma RimFromTrack(x: int, y: int, err: int, xx: int, yy: int, rr: int, x1: int, y1: int)
    requires err == xx + y1 - 1 - rr && -2 * x <= err <= 2 * y + 1
    requires y1 == yy + 2 * y + 1 && x1 == xx + 2 * x + 1
    ensures xx + yy <= rr + 1 < x1 + y1
  {
  }

  /** A horizontal span [lo, hi] on `row`. */
  datatype Span = Span(lo: int, hi: int, row: int)

  /** The two fill spans painted for a corner at octant point (x, y), in order. */
  function Spans(x0: int, y0: int, x: int, y: int, k: Corner): (Span, Span)
  {
    match k
    case SouthEast => (Span(x0, x0 + x, y0 + y), Span(x0, x0 + y, y0 + x))
    case SouthWest => (Span(x0 - y, x0, y0 + x), Span(x0 - x, x0, y0 + y))
    case NorthWest => (Span(x0 - x, x0, y0 - y), Span(x0 - y, x0, y0 - x))
    case NorthEast => (Span(x0, x0 + y, y0 - x), Span(x0, x0 + x, y0 - y))
  }

  /** The two rim pixels painted for a corner at octant point (x, y), in order. */
  function Rim(x0: int, y0: int, x: int, y: int, k: Corner): (Point, Point)
  {
    match k
    case SouthEast => (Point(x0 + x, y0 + y), Point(x0 + y, y0 + x))
    case SouthWest => (Point(x0 - y, y0 + x), Point(x0 - x, y0 + y))
    case NorthWest => (Point(x0 - x, y0 - y), Point(x0 - y, y0 - x))
    case NorthEast => (Point(x0 + y, y0 - x), Point(x0 + x, y0 - y))
  }

  /** The pixels one selected corner paints at octant point (x, y): the spans
      first when filling, then the two rim pixels. */
  function CornerPoints(x0: int, y0: int, x: int, y: int, k: Corner, fill: bool): seq<Point>
  {
    FillPoints(x0, y0, x, y, k, fill) + [Rim(x0, y0, x, y, k).0, Rim(x0, y0, x, y, k).1]
  }

  /** The two spans of a corner when filling, nothing otherwise. */
  function FillPoints(x0: int, y0: int, x: int, y: int, k: Corner, fill: bool): seq<Point>
  {
    var (s, t) := Spans(x0, y0, x, y, k);
    if fill then HRun(s.lo, s.hi, s.row) + HRun(t.lo, t.hi, t.row) else []
  }

  /** The corner's pixels when `quad` selects it, none otherwise. */
  function Selected(x0: int, y0: int, x: int, y: int, quad: bv32, k: Corner, fill: bool): seq<Point>
  {
    if quad & Bit(k) != 0 then CornerPoints(x0, y0, x, y, k, fill) else []
  }

  /** The corners in the order the loop body tests their bits. */
  function Tested(i: nat): Corner
    requires i < 4
  {
    if i == 0 then SouthEast else if i == 1 then SouthWest else if i == 2 then NorthWest else NorthEast
  }

  /** The pixels one loop iteration paints, corners in bit order. */
  function ArcPoints(x0: int, y0: int, quad: bv32, fill: bool, x: int, y: int): seq<Point>
  {
    CornerRun(x0, y0, quad, fill, x, y, 4)
  }

  /** The pixels of the first n corners the loop body tests. */
  function CornerRun(x0: int, y0: int, quad: bv32, fill: bool, x: int, y: int, n: nat): seq<Point>
    requires n <= 4
  {
    if n == 0 then [] else CornerRun(x0, y0, quad, fill, x, y, n - 1) + Selected(x0, y0, x, y, quad, Tested(n - 1), fill)
  }

  /** One iteration paints the selected corners one after the other. */
  lemma ArcSplit(x0: int, y0: int, quad: bv32, fill: bool, x: int, y: int)
    ensures ArcPoints(x0, y0, quad, fill, x, y) ==
              Selected(x0, y0, x, y, quad, SouthEast, fill) + Selected(x0, y0, x, y, quad, SouthWest, fill) +
              Selected(x0, y0, x, y, quad, NorthWest, fill) + Selected(x0, y0, x, y, quad, NorthEast, fill)
  {
    var se := Selected(x0, y0, x, y, quad, SouthEast, fill);
    assert CornerRun(x0, y0, quad, fill, x, y, 1) == [] + se == se;
    assert CornerRun(x0, y0, quad, fill, x, y, 2) == se + Selected(x0, y0, x, y, quad, SouthWest, fill);
    assert CornerRun(x0, y0, quad, fill, x, y, 3) == CornerRun(x0, y0, quad, fill, x, y, 2) + Selected(x0, y0, x, y, quad, NorthWest, fill);
  }

  /** The pixels of the first n iterations. */
  function QuadPoints(x0: int, y0: int, r: int, quad: bv32, fill: bool, n: nat): seq<Point>
  {
    if n == 0 then []
    else QuadPoints(x0, y0, r, quad, fill, n - 1) +
         ArcPoints(x0, y0, quad, fill, Visit(r, n - 1).x, Visit(r, n - 1).y)
  }

  /** All the pixels __paint_quadrant sends to __paint_pixel. */
  function QuadrantPoints(x0: int, y0: int, r: int, quad: bv32, fill: bool): seq<Point>
  {
    QuadPoints(x0, y0, r, quad, fill, Sweeps(r))
  }

  /** The callbacks of the first n iterations, iteration by iteration. */
  function QuadWrites(d: Device, x0: int, y0: int, r: int, quad: bv32, fill: bool, n: nat, c: Color): seq<Write>
  {
    if n == 0 then []
    else QuadWrites(d, x0, y0, r, quad, fill, n - 1, c) +
         Emit(d, ArcPoints(x0, y0, quad, fill, Visit(r, n - 1).x, Visit(r, n - 1).y), c)
  }

  lemma {:induction false} QuadWritesEmit(d: Device, x0: int, y0: int, r: int, quad: bv32, fill: bool, n: nat, c: Color)
    ensures QuadWrites(d, x0, y0, r, quad, fill, n, c) == Emit(d, QuadPoints(x0, y0, r, quad, fill, n), c)
  {
    if n > 0 {
      QuadWritesEmit(d, x0, y0, r, quad, fill, n - 1, c);
      EmitAppend(d, QuadPoints(x0, y0, r, quad, fill, n - 1),
                 ArcPoints(x0, y0, quad, fill, Visit(r, n - 1).x, Visit(r, n - 1).y), c);
    }
  }

  /** __paint_quadrant: the callbacks it makes are those of QuadrantPoints. */
  method PaintQuadrant(d: Device, x0: int, y0: int, r: int, quad: bv32, fill: bool, color: Color)
    returns (out: seq<Write>)
    ensures out == Emit(d, QuadrantPoints(x0, y0, r, quad, fill), color)
  {
    out := PaintSweeps(d, x0, y0, r, quad, fill, color);
    QuadWritesEmit(d, x0, y0, r, quad, fill, Sweeps(r), color);
  }

  /** The loop of __paint_quadrant. */
  method PaintSweeps(d: Device, x0: int, y0: int, r: int, quad: bv32, fill: bool, color: Color)
    returns (out: seq<Write>)
    ensures out == QuadWrites(d, x0, y0, r, quad, fill, Sweeps(r), color)
  {
    var x, y, err := r, 0, 0;
    ghost var n: nat := 0;
    out := [];
    while x >= y
      invariant n <= Sweeps(r) && x - y == r - n
      invariant Arc(x, y, err) == Visit(r, n)
      invariant out == QuadWrites(d, x0, y0, r, quad, fill, n, color)
      decreases x - y
    {
      var w := PaintArc(d, x0, y0, quad, fill, x, y, color);
      out := out + w;
      if err <= 0 {
        y := y + 1;
        err := err + 2 * y + 1;
      } else {
        x := x - 1;
        err := err - (2 * x + 1);
      }
      n := n + 1;
    }
  }

  /** One iteration of the loop, before the step. */
  method PaintArc(d: Device, x0: int, y0: int, quad: bv32, fill: bool, x: int, y: int, color: Color)
    returns (out: seq<Write>)
    ensures out == Emit(d, ArcPoints(x0, y0, quad, fill, x, y), color)
  {
    var se := PaintSelected(d, x0, y0, x, y, quad, SouthEast, fill, color);
    var sw := PaintSelected(d, x0, y0, x, y, quad, SouthWest, fill, color);
    var nw := PaintSelected(d, x0, y0, x, y, quad, NorthWest, fill, color);
    var ne := PaintSelected(d, x0, y0, x, y, quad, NorthEast, fill, color);
    out := se + sw + nw + ne;
    ArcEmit(d, x0, y0, quad, fill, x, y, color);
  }

  /** The `if ((quad & bit) != 0)` block of the loop body for one corner. */
  method PaintSelected(d: Device, x0: int, y0: int, x: int, y: int, quad: bv32, k: Corner, fill: bool, color: Color)
    returns (out: seq<Write>)
    ensures out == Emit(d, Selected(x0, y0, x, y, quad, k, fill), color)
  {
    out := [];
    if quad & Bit(k) != 0 {
      out := PaintCorner(d, x0, y0, x, y, k, fill, color);
    }
  }

  lemma ArcEmit(d: Device, x0: int, y0: int, quad: bv32, fill: bool, x: int, y: int, c: Color)
    ensures Emit(d, ArcPoints(x0, y0, quad, fill, x, y), c) ==
              Emit(d, Selected(x0, y0, x, y, quad, SouthEast, fill), c) +
              Emit(d, Selected(x0, y0, x, y, quad, SouthWest, fill), c) +
              Emit(d, Selected(x0, y0, x, y, quad, NorthWest, fill), c) +
              Emit(d, Selected(x0, y0, x, y, quad, NorthEast, fill), c)
  {
    ArcSplit(x0, y0, quad, fill, x, y);
    var a, b := Selected(x0, y0, x, y, quad, SouthEast, fill), Selected(x0, y0, x, y, quad, SouthWest, fill);
    var e, f := Selected(x0, y0, x, y, quad, NorthWest, fill), Selected(x0, y0, x, y, quad, NorthEast, fill);
    EmitAppend(d, a + b + e, f, c);
    EmitAppend(d, a + b, e, c);
    EmitAppend(d, a, b, c);
  }

  /** The block of the loop body for one selected corner. */
  method PaintCorner(d: Device, x0: int, y0: int, x: int, y: int, k: Corner, fill: bool, color: Color)
    returns (out: seq<Write>)
    ensures out == Emit(d, CornerPoints(x0, y0, x, y, k, fill), color)
  {
    var spans := Spans(x0, y0, x, y, k);
    var rim := Rim(x0, y0, x, y, k);
    out := [];
    if fill {
      var a := PaintHorizontal(d, spans.0.lo, spans.0.hi, spans.0.row, color);
      var b := PaintHorizontal(d, spans.1.lo, spans.1.hi, spans.1.row, color);
      out := a + b;
      EmitAppend(d, HRun(spans.0.lo, spans.0.hi, spans.0.row), HRun(spans.1.lo, spans.1.hi, spans.1.row), color);
    }
    assert out == Emit(d, FillPoints(x0, y0, x, y, k, fill), color);
    out := out + Plot(d, rim.0, color) + Plot(d, rim.1, color);
    CornerEmit(d, x0, y0, x, y, k, fill, color);
  }

  lemma CornerEmit(d: Device, x0: int, y0: int, x: int, y: int, k: Corner, fill: bool, c: Color)
    ensures Emit(d, CornerPoints(x0, y0, x, y, k, fill), c) ==
              Emit(d, FillPoints(x0, y0, x, y, k, fill), c) +
              Plot(d, Rim(x0, y0, x, y, k).0, c) + Plot(d, Rim(x0, y0, x, y, k).1, c)
  {
    var (p, q) := Rim(x0, y0, x, y, k);
    EmitAppend(d, FillPoints(x0, y0, x, y, k, fill), [p, q], c);
    EmitSnoc(d, [p], q, c);
    EmitSnoc(d, [], p, c);
  }

  /** The sign region of a corner, for offsets (dx, dy) from the centre. */
  predicate InCorner(k: Corner, dx: int, dy: int)
  {
    match k
    case SouthEast => dx >= 0 && dy >= 0
    case SouthWest => dx <= 0 && dy >= 0
    case NorthWest => dx <= 0 && dy <= 0
    case NorthEast => dx >= 0 && dy <= 0
  }

  /** Every pixel a corner paints at octant point (x, y) lies in that corner,
      on a span row (offset y with |dx| <= x, or offset x with |dx| <= y); the
      rim pixels are (x, y) or (y, x) up to sign. */
  lemma CornerPointShape(x0: int, y0: int, x: int, y: int, k: Corner, fill: bool, p: Point)
    requires 0 <= y <= x && p in CornerPoints(x0, y0, x, y, k, fill)
    ensures InCorner(k, p.x - x0, p.y - y0)
    ensures (Abs(p.x - x0) <= x && Abs(p.y - y0) == y) || (Abs(p.x - x0) <= y && Abs(p.y - y0) == x)
    ensures p == Rim(x0, y0, x, y, k).0 || p == Rim(x0, y0, x, y, k).1 ==>
              (Abs(p.x - x0) == x && Abs(p.y - y0) == y) || (Abs(p.x - x0) == y && Abs(p.y - y0) == x)
    ensures !fill ==> p == Rim(x0, y0, x, y, k).0 || p == Rim(x0, y0, x, y, k).1
  {
    CornerMember(x0, y0, x, y, k, fill, p);
  }

  lemma SquareMono(u: int, v: int)
    requires Abs(u) <= Abs(v)
    ensures u * u <= v * v
  {
    MulLe(Abs(u), Abs(v), Abs(u));
    MulLe(Abs(u), Abs(v), Abs(v));
  }

  /** Every pixel painted in the first n iterations comes from one of them. */
  lemma {:induction false} QuadPointsFrom(x0: int, y0: int, r: int, quad: bv32, fill: bool, n: nat, p: Point)
    requires p in QuadPoints(x0, y0, r, quad, fill, n)
    ensures exists m :: 0 <= m < n && p in ArcPoints(x0, y0, quad, fill, Visit(r, m).x, Visit(r, m).y)
  {
    QuadStep(x0, y0, r, quad, fill, n, p);
    if p !in ArcPoints(x0, y0, quad, fill, Visit(r, n - 1).x, Visit(r, n - 1).y) {
      QuadPointsFrom(x0, y0, r, quad, fill, n - 1, p);
    }
  }

  /** ... and every iteration's pixels are among them. */
  lemma {:induction false} QuadPointsHas(x0: int, y0: int, r: int, quad: bv32, fill: bool, n: nat, m: nat, p: Point)
    requires m < n && p in ArcPoints(x0, y0, quad, fill, Visit(r, m).x, Visit(r, m).y)
    ensures p in QuadPoints(x0, y0, r, quad, fill, n)
  {
    QuadStep(x0, y0, r, quad, fill, n, p);
    if m < n - 1 {
      QuadPointsHas(x0, y0, r, quad, fill, n - 1, m, p);
    }
  }

  /** A pixel of one iteration comes from a corner that `quad` selects. */
  lemma ArcPointCorner(x0: int, y0: int, quad: bv32, fill: bool, x: int, y: int, p: Point)
    requires p in ArcPoints(x0, y0, quad, fill, x, y)
    ensures exists k :: quad & Bit(k) != 0 && p in CornerPoints(x0, y0, x, y, k, fill)
  {
    ArcSplit(x0, y0, quad, fill, x, y);
    if p in Selected(x0, y0, x, y, quad, SouthEast, fill) {
      assert quad & Bit(SouthEast) != 0;
    } else if p in Selected(x0, y0, x, y, quad, SouthWest, fill) {
      assert quad & Bit(SouthWest) != 0;
    } else if p in Selected(x0, y0, x, y, quad, NorthWest, fill) {
      assert quad & Bit(NorthWest) != 0;
    } else {
      assert quad & Bit(NorthEast) != 0;
    }
  }

  /** ... and every pixel of a selected corner is painted by the iteration. */
  lemma ArcPointHas(x0: int, y0: int, quad: bv32, fill: bool, x: int, y: int, k: Corner, p: Point)
    requires quad & Bit(k) != 0 && p in CornerPoints(x0, y0, x, y, k, fill)
    ensures p in ArcPoints(x0, y0, quad, fill, x, y)
  {
    ArcSplit(x0, y0, quad, fill, x, y);
    assert p in Selected(x0, y0, x, y, quad, k, fill);
  }

  /** Every pixel __paint_quadrant paints lies in a corner that `quad` selects
      and within the circle of squared radius r^2 + 1 about (x0, y0); drawn as
      an outline, every pixel is also less than one pixel per axis from the rim. */
  lemma QuadrantInDisc(x0: int, y0: int, r: int, quad: bv32, fill: bool, p: Point)
    requires p in QuadrantPoints(x0, y0, r, quad, fill)
    ensures exists k :: quad & Bit(k) != 0 && InCorner(k, p.x - x0, p.y - y0)
    ensures InDisc(p.x - x0, p.y - y0, r * r + 1)
    ensures !fill ==> NearRim(p.x - x0, p.y - y0, r * r + 1)
  {
    QuadPointsFrom(x0, y0, r, quad, fill, Sweeps(r), p);
    var m :| 0 <= m < Sweeps(r) && p in ArcPoints(x0, y0, quad, fill, Visit(r, m).x, Visit(r, m).y);
    ArcPointCorner(x0, y0, quad, fill, Visit(r, m).x, Visit(r, m).y, p);
    var k :| quad & Bit(k) != 0 && p in CornerPoints(x0, y0, Visit(r, m).x, Visit(r, m).y, k, fill);
    VisitCornerInDisc(x0, y0, r, m, k, fill, p);
  }

  lemma VisitCornerInDisc(x0: int, y0: int, r: int, m: nat, k: Corner, fill: bool, p: Point)
    requires m < Sweeps(r) && p in CornerPoints(x0, y0, Visit(r, m).x, Visit(r, m).y, k, fill)
    ensures InCorner(k, p.x - x0, p.y - y0)
    ensures InDisc(p.x - x0, p.y - y0, r * r + 1)
    ensures !fill ==> NearRim(p.x - x0, p.y - y0, r * r + 1)
  {
    VisitOnRim(r, m);
    CornerInDisc(x0, y0, Visit(r, m).x, Visit(r, m).y, k, fill, p, r * r + 1);
  }

  /** The pixels of a corner at octant point (x, y) stay within any circle that
      holds (x, y), and rim pixels are as near its edge as (x, y) is. */
  lemma CornerInDisc(x0: int, y0: int, x: int, y: int, k: Corner, fill: bool, p: Point, rr: int)
    requires 0 <= y <= x && InDisc(x, y, rr) && p in CornerPoints(x0, y0, x, y, k, fill)
    ensures InCorner(k, p.x - x0, p.y - y0)
    ensures InDisc(p.x - x0, p.y - y0, rr)
    ensures !fill && NearRim(x, y, rr) ==> NearRim(p.x - x0, p.y - y0, rr)
  {
    CornerPointShape(x0, y0, x, y, k, fill, p);
    var dx, dy := p.x - x0, p.y - y0;
    if Abs(dy) == y {
      SquareMono(dx, x);
      SquareMono(dy, y);
    } else {
      SquareMono(dx, y);
      SquareMono(dy, x);
    }
  }

  /** A pixel is painted for quad a | b exactly when it is painted for a or for b:
      selecting corners one call at a time covers the same pixels. */
  lemma {:induction false} QuadUnion(x0: int, y0: int, r: int, a: bv32, b: bv32, fill: bool, n: nat, p: Point)
    ensures p in QuadPoints(x0, y0, r, a | b, fill, n) <==>
              p in QuadPoints(x0, y0, r, a, fill, n) || p in QuadPoints(x0, y0, r, b, fill, n)
  {
    if n > 0 {
      QuadUnion(x0, y0, r, a, b, fill, n - 1, p);
      var v := Visit(r, n - 1);
      ArcUnion(x0, y0, a, b, fill, v.x, v.y, p);
      QuadStep(x0, y0, r, a | b, fill, n, p);
      QuadStep(x0, y0, r, a, fill, n, p);
      QuadStep(x0, y0, r, b, fill, n, p);
    }
  }

  lemma QuadStep(x0: int, y0: int, r: int, quad: bv32, fill: bool, n: nat, p: Point)
    requires n > 0
    ensures p in QuadPoints(x0, y0, r, quad, fill, n) <==>
              p in QuadPoints(x0, y0, r, quad, fill, n - 1) ||
              p in ArcPoints(x0, y0, quad, fill, Visit(r, n - 1).x, Visit(r, n - 1).y)
  {
  }

  lemma ArcUnion(x0: int, y0: int, a: bv32, b: bv32, fill: bool, x: int, y: int, p: Point)
    ensures p in ArcPoints(x0, y0, a | b, fill, x, y) <==>
              p in ArcPoints(x0, y0, a, fill, x, y) || p in ArcPoints(x0, y0, b, fill, x, y)
  {
    if p in ArcPoints(x0, y0, a | b, fill, x, y) {
      ArcUnionSplits(x0, y0, a, b, fill, x, y, p);
    }
    if p in ArcPoints(x0, y0, a, fill, x, y) {
      ArcUnionWidens(x0, y0, a, b, fill, x, y, p);
    }
    if p in ArcPoints(x0, y0, b, fill, x, y) {
      assert b | a == a | b;
      ArcUnionWidens(x0, y0, b, a, fill, x, y, p);
    }
  }

  lemma ArcUnionSplits(x0: int, y0: int, a: bv32, b: bv32, fill: bool, x: int, y: int, p: Point)
    requires p in ArcPoints(x0, y0, a | b, fill, x, y)
    ensures p in ArcPoints(x0, y0, a, fill, x, y) || p in ArcPoints(x0, y0, b, fill, x, y)
  {
    ArcPointCorner(x0, y0, a | b, fill, x, y, p);
    var k :| (a | b) & Bit(k) != 0 && p in CornerPoints(x0, y0, x, y, k, fill);
    BitUnion(a, b, k);
    if a & Bit(k) != 0 {
      ArcPointHas(x0, y0, a, fill, x, y, k, p);
    } else {
      ArcPointHas(x0, y0, b, fill, x, y, k, p);
    }
  }

  lemma ArcUnionWidens(x0: int, y0: int, a: bv32, b: bv32, fill: bool, x: int, y: int, p: Point)
    requires p in ArcPoints(x0, y0, a, fill, x, y)
    ensures p in ArcPoints(x0, y0, a | b, fill, x, y)
  {
    ArcPointCorner(x0, y0, a, fill, x, y, p);
    var k :| a & Bit(k) != 0 && p in CornerPoints(x0, y0, x, y, k, fill);
    BitUnion(a, b, k);
    ArcPointHas(x0, y0, a | b, fill, x, y, k, p);
  }

  lemma BitUnion(a: bv32, b: bv32, k: Corner)
    ensures (a | b) & Bit(k) != 0 <==> a & Bit(k) != 0 || b & Bit(k) != 0
  {
  }

  /** No corner selected, or a negative radius, paints nothing. */
  lemma QuadrantEmpty(x0: int, y0: int, r: int, quad: bv32, fill: bool)
    requires quad & 0xf == 0 || r < 0
    ensures QuadrantPoints(x0, y0, r, quad, fill) == []
  {
    if r >= 0 {
      forall k: Corner ensures quad & Bit(k) == 0 {
      }
      QuadNone(x0, y0, r, quad, fill, Sweeps(r));
    }
  }

  lemma {:induction false} QuadNone(x0: int, y0: int, r: int, quad: bv32, fill: bool, n: nat)
    requires forall k: Corner :: quad & Bit(k) == 0
    ensures QuadPoints(x0, y0, r, quad, fill, n) == []
  {
    if n > 0 {
      QuadNone(x0, y0, r, quad, fill, n - 1);
      var v := Visit(r, n - 1);
      ArcSplit(x0, y0, quad, fill, v.x, v.y);
      assert Selected(x0, y0, v.x, v.y, quad, SouthEast, fill) == [];
      assert Selected(x0, y0, v.x, v.y, quad, SouthWest, fill) == [];
      assert Selected(x0, y0, v.x, v.y, quad, NorthWest, fill) == [];
      assert Selected(x0, y0, v.x, v.y, quad, NorthEast, fill) == [];
    }
  }

  /** The corner across the vertical axis through the centre. */
  function FlipX(k: Corner): Corner
  {
    match k
    case SouthEast => SouthWest
    case SouthWest => SouthEast
    case NorthWest => NorthEast
    case NorthEast => NorthWest
  }

  /** The corner across the horizontal axis through the centre. */
  function FlipY(k: Corner): Corner
  {
    match k
    case SouthEast => NorthEast
    case SouthWest => NorthWest
    case NorthWest => SouthWest
    case NorthEast => SouthEast
  }

  /** The corner across the diagonal dx == dy. */
  function Transpose(k: Corner): Corner
  {
    match k
    case SouthEast => SouthEast
    case SouthWest => NorthEast
    case NorthWest => NorthWest
    case NorthEast => SouthWest
  }

  /** The pixel p lies on span s. */
  predicate OnSpan(s: Span, p: Point)
  {
    s.lo <= p.x <= s.hi && p.y == s.row
  }

  /** A corner paints exactly the pixels on its two spans (when filling) and
      its two rim pixels. */
  lemma CornerMember(x0: int, y0: int, x: int, y: int, k: Corner, fill: bool, p: Point)
    ensures p in CornerPoints(x0, y0, x, y, k, fill) <==>
              (fill && (OnSpan(Spans(x0, y0, x, y, k).0, p) || OnSpan(Spans(x0, y0, x, y, k).1, p))) ||
              p == Rim(x0, y0, x, y, k).0 || p == Rim(x0, y0, x, y, k).1
  {
    var (s, t) := Spans(x0, y0, x, y, k);
    HRunMember(s.lo, s.hi, s.row, p);
    HRunMember(t.lo, t.hi, t.row, p);
  }

  /** Reflecting a corner's pixel across the vertical axis through the centre
      gives a pixel of the reflected corner. */
  lemma CornerMirrorX(x0: int, y0: int, x: int, y: int, k: Corner, fill: bool, p: Point)
    requires p in CornerPoints(x0, y0, x, y, k, fill)
    ensures Point(2 * x0 - p.x, p.y) in CornerPoints(x0, y0, x, y, FlipX(k), fill)
  {
    var q := Point(2 * x0 - p.x, p.y);
    CornerMember(x0, y0, x, y, k, fill, p);
    CornerMember(x0, y0, x, y, FlipX(k), fill, q);
  }

  /** ... and across the horizontal axis. */
  lemma CornerMirrorY(x0: int, y0: int, x: int, y: int, k: Corner, fill: bool, p: Point)
    requires p in CornerPoints(x0, y0, x, y, k, fill)
    ensures Point(p.x, 2 * y0 - p.y) in CornerPoints(x0, y0, x, y, FlipY(k), fill)
  {
    var q := Point(p.x, 2 * y0 - p.y);
    CornerMember(x0, y0, x, y, k, fill, p);
    CornerMember(x0, y0, x, y, FlipY(k), fill, q);
  }

  /** Swapping the offsets of an outline corner's pixel gives a pixel of the
      transposed corner (the spans of a fill are horizontal, so only outlines). */
  lemma CornerTranspose(x0: int, y0: int, x: int, y: int, k: Corner, p: Point)
    requires p in CornerPoints(x0, y0, x, y, k, false)
    ensures Point(x0 + (p.y - y0), y0 + (p.x - x0)) in CornerPoints(x0, y0, x, y, Transpose(k), false)
  {
  }

  /** A pixel of a corner at some visit is painted by a full circle. */
  lemma CirclePaints(x0: int, y0: int, r: int, fill: bool, m: nat, k: Corner, q: Point)
    requires m < Sweeps(r) && q in CornerPoints(x0, y0, Visit(r, m).x, Visit(r, m).y, k, fill)
    ensures q in QuadrantPoints(x0, y0, r, 0xf, fill)
  {
    ArcPointHas(x0, y0, 0xf, fill, Visit(r, m).x, Visit(r, m).y, k, q);
    QuadPointsHas(x0, y0, r, 0xf, fill, Sweeps(r), m, q);
  }

  /** A full circle (quad 0xf) is symmetric about both axes through its centre,
      and an outline also about the diagonal. */
  lemma CircleSymmetric(x0: int, y0: int, r: int, fill: bool, p: Point)
    requires p in QuadrantPoints(x0, y0, r, 0xf, fill)
    ensures Point(2 * x0 - p.x, p.y) in QuadrantPoints(x0, y0, r, 0xf, fill)
    ensures Point(p.x, 2 * y0 - p.y) in QuadrantPoints(x0, y0, r, 0xf, fill)
    ensures !fill ==> Point(x0 + (p.y - y0), y0 + (p.x - x0)) in QuadrantPoints(x0, y0, r, 0xf, fill)
  {
    QuadPointsFrom(x0, y0, r, 0xf, fill, Sweeps(r), p);
    var m :| 0 <= m < Sweeps(r) && p in ArcPoints(x0, y0, 0xf, fill, Visit(r, m).x, Visit(r, m).y);
    var a := Visit(r, m);
    ArcPointCorner(x0, y0, 0xf, fill, a.x, a.y, p);
    var k :| 0xf & Bit(k) != 0 && p in CornerPoints(x0, y0, a.x, a.y, k, fill);
    CornerMirrorX(x0, y0, a.x, a.y, k, fill, p);
    CirclePaints(x0, y0, r, fill, m, FlipX(k), Point(2 * x0 - p.x, p.y));
    CornerMirrorY(x0, y0, a.x, a.y, k, fill, p);
    CirclePaints(x0, y0, r, fill, m, FlipY(k), Point(p.x, 2 * y0 - p.y));
    if !fill {
      CornerTranspose(x0, y0, a.x, a.y, k, p);
      CirclePaints(x0, y0, r, fill, m, Transpose(k), Point(x0 + (p.y - y0), y0 + (p.x - x0)));
    }
  }

  /** The outline pixels of a corner are among its filled pixels: filling only
      adds the spans. */
  lemma CornerOutlineInFill(x0: int, y0: int, x: int, y: int, k: Corner, p: Point)
    requires p in CornerPoints(x0, y0, x, y, k, false)
    ensures p in CornerPoints(x0, y0, x, y, k, true)
  {
    var rim := [Rim(x0, y0, x, y, k).0, Rim(x0, y0, x, y, k).1];
    assert CornerPoints(x0, y0, x, y, k, false) == [] + rim;
    assert CornerPoints(x0, y0, x, y, k, true) == FillPoints(x0, y0, x, y, k, true) + rim;
  }

  /** Every pixel of an outline quadrant is painted by the filled quadrant with
      the same centre, radius and corners. */
  lemma QuadrantOutlineInFill(x0: int, y0: int, r: int, quad: bv32, p: Point)
    requires p in QuadrantPoints(x0, y0, r, quad, false)
    ensures p in QuadrantPoints(x0, y0, r, quad, true)
  {
    QuadPointsFrom(x0, y0, r, quad, false, Sweeps(r), p);
    var m :| 0 <= m < Sweeps(r) && p in ArcPoints(x0, y0, quad, false, Visit(r, m).x, Visit(r, m).y);
    var a := Visit(r, m);
    ArcPointCorner(x0, y0, quad, false, a.x, a.y, p);
    var k :| quad & Bit(k) != 0 && p in CornerPoints(x0, y0, a.x, a.y, k, false);
    CornerOutlineInFill(x0, y0, a.x, a.y, k, p);
    ArcPointHas(x0, y0, quad, true, a.x, a.y, k, p);
    QuadPointsHas(x0, y0, r, quad, true, Sweeps(r), m, p);
  }

  /** The first iteration paints, for each selected corner, the two rim
      pixels at distance r along the axes from the centre. */
  lemma QuadrantRimStart(x0: int, y0: int, r: int, k: Corner, fill: bool)
    requires r >= 0
    ensures Rim(x0, y0, r, 0, k).0 in QuadrantPoints(x0, y0, r, Bit(k), fill)
    ensures Rim(x0, y0, r, 0, k).1 in QuadrantPoints(x0, y0, r, Bit(k), fill)
  {
    var (p, q) := Rim(x0, y0, r, 0, k);
    assert Visit(r, 0) == Arc(r, 0, 0);
    assert p in CornerPoints(x0, y0, r, 0, k, fill) && q in CornerPoints(x0, y0, r, 0, k, fill);
    ArcPointHas(x0, y0, Bit(k), fill, r, 0, k, p);
    ArcPointHas(x0, y0, Bit(k), fill, r, 0, k, q);
    QuadPointsHas(x0, y0, r, Bit(k), fill, Sweeps(r), 0, p);
    QuadPointsHas(x0, y0, r, Bit(k), fill, Sweeps(r), 0, q);
  }

  /** Painting a single corner of radius at least one stays in that corner of
      the square of side 2 r + 1 about the centre. */
  lemma SingleCornerBox(x0: int, y0: int, r: int, k: Corner, fill: bool, p: Point)
    requires r >= 1 && p in QuadrantPoints(x0, y0, r, Bit(k), fill)
    ensures InCorner(k, p.x - x0, p.y - y0)
    ensures Abs(p.x - x0) <= r && Abs(p.y - y0) <= r
  {
    QuadrantInDisc(x0, y0, r, Bit(k), fill, p);
    var k' :| Bit(k) & Bit(k') != 0 && InCorner(k', p.x - x0, p.y - y0);
    assert k' == k;
    DiscBound(p.x - x0, p.y - y0, r);
  }

  /** A point within the circle of squared radius r^2 + 1, for r at least one,
      is at most r from the centre along each axis. */
  lemma DiscBound(dx: int, dy: int, r: int)
    requires r >= 1 && InDisc(dx, dy, r * r + 1)
    ensures Abs(dx) <= r && Abs(dy) <= r
  {
    assert dx * dx >= 0 && dy * dy >= 0;
    assert (r + 1) * (r + 1) == r * r + 2 * r + 1;
    if Abs(dx) > r {
      SquareMono(r + 1, dx);
    }
    if Abs(dy) > r {
      SquareMono(r + 1, dy);
    }
  }
}
