// The line rasteriser __paint_line (lib/src/gfx.c:140-234): a point shortcut,
// vertical and horizontal spans, then Bresenham driven by x or by y.

module Line {
  import opened GfxHeader
  import opened Arith
  import opened Sink

  /** The minor-axis offset of the k-th pixel of a Bresenham run whose driving
      axis advances `major` and whose other axis advances `minor`: the least t
      with (k + 1) * minor <= (t + 1) * major. */
  function Step(k: int, major: int, minor: int): int
    requires 0 < minor <= major && 0 <= k
  {
    ((k + 1) * minor - 1) / major
  }

  /** The run starts on its first endpoint and ends on its second. */
  lemma StepEnds(major: int, minor: int)
    requires 0 < minor <= major
    ensures Step(0, major, minor) == 0 && Step(major, major, minor) == minor
  {
    DivFromBounds(minor - 1, major, 0);
    assert (major + 1) * minor - 1 == minor * major + (minor - 1);
    assert (minor + 1) * major == minor * major + major;
    DivFromBounds((major + 1) * minor - 1, major, minor);
  }

  /** Every pixel of the run lies within less than one pixel of the ideal line
      (the distance along the minor axis, scaled by `major`), hence between the
      endpoints. */
  lemma {:induction false} StepWithin(k: int, major: int, minor: int)
    requires 0 < minor <= major && 0 <= k <= major
    ensures Abs(Step(k, major, minor) * major - k * minor) < major
    ensures 0 <= Step(k, major, minor) <= minor
  {
    var q := Step(k, major, minor);
    StepNear(k, major, minor);
    MulLe(k, major, minor);
    assert (minor + 1) * major == minor * major + major;
    if q > minor {
      MulLe(minor + 1, q, major);
    }
    if q < 0 {
      MulLe(q, -1, major);
    }
  }

  /** The minor axis advances by zero or one from one pixel to the next. */
  lemma {:induction false} StepIncrement(k: int, major: int, minor: int)
    requires 0 < minor <= major && 0 <= k
    ensures 0 <= Step(k + 1, major, minor) - Step(k, major, minor) <= 1
  {
    var q, q' := Step(k, major, minor), Step(k + 1, major, minor);
    StepNear(k, major, minor);
    StepNear(k + 1, major, minor);
    assert (k + 1) * minor == k * minor + minor;
    assert q' * major - q * major == (q' - q) * major;
    if q' - q >= 2 {
      MulLe(2, q' - q, major);
    }
    if q' - q < 0 {
      MulLe(q' - q, -1, major);
    }
  }

  lemma StepNear(k: int, major: int, minor: int)
    requires 0 < minor <= major && 0 <= k
    ensures k * minor - major < Step(k, major, minor) * major <= k * minor + minor - 1
  {
    var a := (k + 1) * minor - 1;
    var q := a / major;
    assert a == q * major + a % major;
    assert (k + 1) * minor == k * minor + minor;
  }

  /** The error term of the loop pins down the step count. */
  lemma StepFromError(k: int, t: int, major: int, minor: int)
    requires 0 < minor <= major && 0 <= k
    requires -major < ErrTerm(k, t, major, minor) <= 0
    ensures t == Step(k, major, minor)
  {
    assert (t + 1) * major == t * major + major;
    DivFromBounds((k + 1) * minor - 1, major, t);
  }

  /** While the run has not reached its last pixel, the step count is below `minor`. */
  lemma StepBelowEnd(k: int, t: int, major: int, minor: int)
    requires 0 < minor <= major && 0 <= k && k + 1 <= major
    requires (t + 1) * major < (k + 2) * minor
    ensures t < minor
  {
    MulLe(k + 2, major + 1, minor);
    assert (major + 1) * minor == major * minor + minor;
    MulLe(minor, major, 1);
    assert (minor + 1) * major == minor * major + major;
    MulLtCancel(t + 1, minor + 1, major);
  }

  /** The error term of a Bresenham loop after k pixels and t minor-axis steps. */
  function ErrTerm(k: int, t: int, major: int, minor: int): int
  {
    (k + 1) * minor - (t + 1) * major
  }

  /** One iteration of the error update keeps the loop's error invariant: the
      term grows by `minor`, and when it turns positive the minor axis steps and
      the term drops by `major`. Before the last pixel a step never overshoots. */
  lemma ErrorStep(k: int, t: int, e: int, major: int, minor: int)
    requires 0 < minor <= major && 0 <= k
    requires -major < e <= 0 && e == ErrTerm(k, t, major, minor)
    ensures e + minor > 0 ==>
              -major < e + minor - major <= 0 && e + minor - major == ErrTerm(k + 1, t + 1, major, minor)
    ensures e + minor <= 0 ==> e + minor == ErrTerm(k + 1, t, major, minor)
    ensures e + minor > 0 && k + 1 <= major ==> t < minor
  {
    assert (k + 2) * minor == (k + 1) * minor + minor;
    assert (t + 2) * major == (t + 1) * major + major;
    if e + minor > 0 && k + 1 <= major {
      StepBelowEnd(k, t, major, minor);
    }
  }

  /** The state of a Bresenham loop: minor-axis steps taken and the error term. */
  datatype ErrState = ErrState(t: int, e: int)

  /** The loop's state after k pixels: the error starts at minor - major, grows by
      `minor` per pixel, and when it turns positive the minor axis steps and the
      error drops by `major`. */
  function Bres(k: nat, major: int, minor: int): ErrState
  {
    if k == 0 then ErrState(0, minor - major)
    else
      var s := Bres(k - 1, major, minor);
      if s.e + minor > 0 then ErrState(s.t + 1, s.e + minor - major) else ErrState(s.t, s.e + minor)
  }

  /** The error recurrence keeps the error in (-major, 0], and the step count it
      produces is the closed form Step. */
  lemma {:induction false} BresIsStep(k: nat, major: int, minor: int)
    requires 0 < minor <= major
    ensures -major < Bres(k, major, minor).e <= 0
    ensures Bres(k, major, minor).e == ErrTerm(k, Bres(k, major, minor).t, major, minor)
    ensures Bres(k, major, minor).t == Step(k, major, minor)
  {
    var s := Bres(k, major, minor);
    if k > 0 {
      var p := Bres(k - 1, major, minor);
      BresIsStep(k - 1, major, minor);
      ErrorStep(k - 1, p.t, p.e, major, minor);
    }
    StepFromError(k, s.t, major, minor);
  }

  /** One iteration of a Bresenham loop on the minor axis: from state (t, e) at
      coordinate `pos`, the error grows by `minor`; when it turns positive the
      coordinate steps toward `end` and the error drops by `major`. The state
      (t', e') at `pos'` so reached is the next one of the recurrence. */
  lemma MinorAdvance(k: nat, t: int, e: int, pos: int, t': int, e': int, pos': int,
                     major: int, minor: int, from: int, down: bool, end: int)
    requires 0 < minor <= major && ErrState(t, e) == Bres(k, major, minor)
    requires end == Toward(from, down, minor) && pos == Toward(from, down, t)
    requires e + minor > 0 ==>
               t' == t + 1 && e' == e + minor - major && pos' == pos + (if pos > end then -1 else 1)
    requires e + minor <= 0 ==> t' == t && e' == e + minor && pos' == pos
    ensures ErrState(t', e') == Bres(k + 1, major, minor)
    ensures k + 1 <= major ==> pos' == Toward(from, down, t')
  {
    BresIsStep(k, major, minor);
    ErrorStep(k, t, e, major, minor);
  }

  /** Pixels (x0, y) .. (x1, y), in increasing x. */
  function HRun(x0: int, x1: int, y: int): (pts: seq<Point>)
    decreases x1 - x0
  {
    if x1 < x0 then [] else HRun(x0, x1 - 1, y) + [Point(x1, y)]
  }

  /** Pixels (x, y0) .. (x, y1), in increasing y. */
  function VRun(x: int, y0: int, y1: int): (pts: seq<Point>)
    decreases y1 - y0
  {
    if y1 < y0 then [] else VRun(x, y0, y1 - 1) + [Point(x, y1)]
  }

  /** The coordinate t pixels from `from`, stepping down when `down`. */
  function Toward(from: int, down: bool, t: int): int
  {
    if down then from - t else from + t
  }

  /** The first n pixels of an x-driven run from (xs, ys). */
  function XRun(xs: int, ys: int, down: bool, mx: int, my: int, n: nat): (pts: seq<Point>)
    requires 0 < my <= mx
  {
    if n == 0 then []
    else XRun(xs, ys, down, mx, my, n - 1) + [Point(xs + (n - 1), Toward(ys, down, Bres(n - 1, mx, my).t))]
  }

  /** The first n iterations of a y-driven run from (xs, ys): each paints its
      pixel and then, through gfx_draw_point, the context cursor. */
  function YRun(xs: int, ys: int, down: bool, my: int, mx: int, cur: Point, n: nat): (pts: seq<Point>)
    requires 0 < mx <= my
  {
    if n == 0 then []
    else YRun(xs, ys, down, my, mx, cur, n - 1) + [Point(Toward(xs, down, Bres(n - 1, my, mx).t), ys + (n - 1)), cur]
  }

  lemma XRunEmitStep(d: Device, xs: int, ys: int, down: bool, mx: int, my: int, k: nat, x: int, y: int, c: Color)
    requires 0 < my <= mx && x == xs + k && y == Toward(ys, down, Bres(k, mx, my).t)
    ensures Emit(d, XRun(xs, ys, down, mx, my, k + 1), c) ==
              Emit(d, XRun(xs, ys, down, mx, my, k), c) + Plot(d, Point(x, y), c)
  {
    EmitSnoc(d, XRun(xs, ys, down, mx, my, k), Point(xs + k, y), c);
  }

  lemma YRunEmitStep(d: Device, xs: int, ys: int, down: bool, my: int, mx: int, cur: Point,
                     k: nat, x: int, c: Color)
    requires 0 < mx <= my && x == Toward(xs, down, Bres(k, my, mx).t)
    ensures Emit(d, YRun(xs, ys, down, my, mx, cur, k + 1), c) ==
              Emit(d, YRun(xs, ys, down, my, mx, cur, k), c) + Plot(d, Point(x, ys + k), c) + Plot(d, cur, c)
  {
    var before := YRun(xs, ys, down, my, mx, cur, k);
    EmitSnoc(d, before, Point(x, ys + k), c);
    EmitSnoc(d, before + [Point(x, ys + k)], cur, c);
    assert before + [Point(x, ys + k), cur] == before + [Point(x, ys + k)] + [cur];
  }

  /** The callbacks for the first n pixels of an x-driven run, pixel by pixel. */
  function XWrites(d: Device, xs: int, ys: int, down: bool, mx: int, my: int, n: nat, c: Color): seq<Write>
    requires 0 < my <= mx
  {
    if n == 0 then []
    else XWrites(d, xs, ys, down, mx, my, n - 1, c) +
         Plot(d, Point(xs + (n - 1), Toward(ys, down, Bres(n - 1, mx, my).t)), c)
  }

  lemma {:induction false} XWritesEmit(d: Device, xs: int, ys: int, down: bool, mx: int, my: int, n: nat, c: Color)
    requires 0 < my <= mx
    ensures XWrites(d, xs, ys, down, mx, my, n, c) == Emit(d, XRun(xs, ys, down, mx, my, n), c)
  {
    if n > 0 {
      XWritesEmit(d, xs, ys, down, mx, my, n - 1, c);
      XRunEmitStep(d, xs, ys, down, mx, my, n - 1, xs + (n - 1), Toward(ys, down, Bres(n - 1, mx, my).t), c);
    }
  }

  /** The callbacks for the first n pixels of a y-driven run, each followed by the cursor's. */
  function YWrites(d: Device, xs: int, ys: int, down: bool, my: int, mx: int, n: nat, c: Color): seq<Write>
    requires 0 < mx <= my
  {
    if n == 0 then []
    else YWrites(d, xs, ys, down, my, mx, n - 1, c) +
         Plot(d, Point(Toward(xs, down, Bres(n - 1, my, mx).t), ys + (n - 1)), c) + Plot(d, d.cursor, c)
  }

  lemma {:induction false} YWritesEmit(d: Device, xs: int, ys: int, down: bool, my: int, mx: int, n: nat, c: Color)
    requires 0 < mx <= my
    ensures YWrites(d, xs, ys, down, my, mx, n, c) == Emit(d, YRun(xs, ys, down, my, mx, d.cursor, n), c)
  {
    if n > 0 {
      YWritesEmit(d, xs, ys, down, my, mx, n - 1, c);
      YRunEmitStep(d, xs, ys, down, my, mx, d.cursor, n - 1, Toward(xs, down, Bres(n - 1, my, mx).t), c);
    }
  }

  /** The user-space points __paint_line sends to __paint_pixel, in order; `cur`
      is the context cursor that the y-driven branch also paints. */
  function LinePoints(x0: int, y0: int, x1: int, y1: int, cur: Point): seq<Point>
  {
    if x0 == x1 && y0 == y1 then [Point(x0, y0)]
    else if x0 == x1 then
      (if y0 > y1 then VRun(x0, y1, y0) else VRun(x0, y0, y1))
    else if y0 == y1 then
      (if x0 > x1 then HRun(x1, x0, y0) else HRun(x0, x1, y0))
    else DiagonalPoints(x0, y0, x1, y1, cur)
  }

  /** The Bresenham part of LinePoints: walked from the end with the smaller
      coordinate on the driving axis, which is x when |dx| > |dy| and y otherwise. */
  function DiagonalPoints(x0: int, y0: int, x1: int, y1: int, cur: Point): seq<Point>
    requires x0 != x1 && y0 != y1
  {
    if Abs(x1 - x0) > Abs(y1 - y0) then
      var xs, ys, xe, ye := if x1 < x0 then x1 else x0, if x1 < x0 then y1 else y0,
                            if x1 < x0 then x0 else x1, if x1 < x0 then y0 else y1;
      XRun(xs, ys, ys > ye, xe - xs, Abs(ye - ys), xe - xs + 1)
    else
      var xs, ys, xe, ye := if y1 < y0 then x1 else x0, if y1 < y0 then y1 else y0,
                            if y1 < y0 then x0 else x1, if y1 < y0 then y0 else y1;
      YRun(xs, ys, xs > xe, ye - ys, Abs(xe - xs), cur, ye - ys + 1)
  }

  /** __paint_line: the callbacks it makes are those of LinePoints. */
  method PaintLine(d: Device, x0: int, y0: int, x1: int, y1: int, color: Color)
    returns (out: seq<Write>)
    ensures out == Emit(d, LinePoints(x0, y0, x1, y1, d.cursor), color)
  {
    /* one pixel line if the destination is the same */
    if (x0 == x1) && (y0 == y1) {
      out := Plot(d, Point(x0, y0), color);
      return;
    }

    /* vertical and horizontal lines, walked from the lower end */
    if x0 == x1 {
      if y0 > y1 {
        out := PaintVertical(d, x0, y1, y0, color);
      } else {
        out := PaintVertical(d, x0, y0, y1, color);
      }
      return;
    }
    if y0 == y1 {
      if x0 > x1 {
        out := PaintHorizontal(d, x1, x0, y0, color);
      } else {
        out := PaintHorizontal(d, x0, x1, y0, color);
      }
      return;
    }

    out := PaintDiagonal(d, x0, y0, x1, y1, color);
  }

  /** The Bresenham branches of __paint_line (neither delta is zero). */
  method PaintDiagonal(d: Device, x0: int, y0: int, x1: int, y1: int, color: Color)
    returns (out: seq<Write>)
    requires x0 != x1 && y0 != y1
    ensures out == Emit(d, DiagonalPoints(x0, y0, x1, y1, d.cursor), color)
  {
    var da := Abs(x1 - x0) > Abs(y1 - y0);

    /* Bresenham, driven by the axis with the larger delta, from the lower end */
    if da {
      if x1 < x0 {
        out := PaintXDriven(d, x1, y1, x0, y0, color);
        XDiagonalSwapped(d, x0, y0, x1, y1, color);
      } else {
        out := PaintXDriven(d, x0, y0, x1, y1, color);
        XDiagonalInOrder(d, x0, y0, x1, y1, color);
      }
    } else {
      if y1 < y0 {
        out := PaintYDriven(d, x1, y1, x0, y0, color);
        YDiagonalSwapped(d, x0, y0, x1, y1, color);
      } else {
        out := PaintYDriven(d, x0, y0, x1, y1, color);
        YDiagonalInOrder(d, x0, y0, x1, y1, color);
      }
    }
  }

  /** An x-driven line drawn right to left is walked from (x1, y1). */
  lemma XDiagonalSwapped(d: Device, x0: int, y0: int, x1: int, y1: int, c: Color)
    requires x0 != x1 && y0 != y1 && Abs(x1 - x0) > Abs(y1 - y0) && x1 < x0
    ensures Emit(d, DiagonalPoints(x0, y0, x1, y1, d.cursor), c) == XWrites(d, x1, y1, y1 > y0, x0 - x1, Abs(y0 - y1), x0 - x1 + 1, c)
  {
    assert DiagonalPoints(x0, y0, x1, y1, d.cursor) == XRun(x1, y1, y1 > y0, x0 - x1, Abs(y0 - y1), x0 - x1 + 1);
    XWritesEmit(d, x1, y1, y1 > y0, x0 - x1, Abs(y0 - y1), x0 - x1 + 1, c);
  }

  /** An x-driven line drawn left to right is walked from (x0, y0). */
  lemma XDiagonalInOrder(d: Device, x0: int, y0: int, x1: int, y1: int, c: Color)
    requires x0 != x1 && y0 != y1 && Abs(x1 - x0) > Abs(y1 - y0) && x0 <= x1
    ensures Emit(d, DiagonalPoints(x0, y0, x1, y1, d.cursor), c) == XWrites(d, x0, y0, y0 > y1, x1 - x0, Abs(y1 - y0), x1 - x0 + 1, c)
  {
    assert DiagonalPoints(x0, y0, x1, y1, d.cursor) == XRun(x0, y0, y0 > y1, x1 - x0, Abs(y1 - y0), x1 - x0 + 1);
    XWritesEmit(d, x0, y0, y0 > y1, x1 - x0, Abs(y1 - y0), x1 - x0 + 1, c);
  }

  /** A y-driven line drawn bottom to top is walked from (x1, y1). */
  lemma YDiagonalSwapped(d: Device, x0: int, y0: int, x1: int, y1: int, c: Color)
    requires x0 != x1 && y0 != y1 && Abs(x1 - x0) <= Abs(y1 - y0) && y1 < y0
    ensures Emit(d, DiagonalPoints(x0, y0, x1, y1, d.cursor), c) == YWrites(d, x1, y1, x1 > x0, y0 - y1, Abs(x0 - x1), y0 - y1 + 1, c)
  {
    assert DiagonalPoints(x0, y0, x1, y1, d.cursor) == YRun(x1, y1, x1 > x0, y0 - y1, Abs(x0 - x1), d.cursor, y0 - y1 + 1);
    YWritesEmit(d, x1, y1, x1 > x0, y0 - y1, Abs(x0 - x1), y0 - y1 + 1, c);
  }

  /** A y-driven line drawn top to bottom is walked from (x0, y0). */
  lemma YDiagonalInOrder(d: Device, x0: int, y0: int, x1: int, y1: int, c: Color)
    requires x0 != x1 && y0 != y1 && Abs(x1 - x0) <= Abs(y1 - y0) && y0 <= y1
    ensures Emit(d, DiagonalPoints(x0, y0, x1, y1, d.cursor), c) == YWrites(d, x0, y0, x0 > x1, y1 - y0, Abs(x1 - x0), y1 - y0 + 1, c)
  {
    assert !(Abs(x1 - x0) > Abs(y1 - y0)) && !(y1 < y0);
    assert DiagonalPoints(x0, y0, x1, y1, d.cursor) == YRun(x0, y0, x0 > x1, y1 - y0, Abs(x1 - x0), d.cursor, y1 - y0 + 1);
    YWritesEmit(d, x0, y0, x0 > x1, y1 - y0, Abs(x1 - x0), y1 - y0 + 1, c);
  }

  /** The vertical shortcut of __paint_line, after the endpoints are ordered. */
  method PaintVertical(d: Device, x: int, ya: int, yb: int, color: Color)
    returns (out: seq<Write>)
    ensures out == Emit(d, VRun(x, ya, yb), color)
  {
    var y0 := ya;
    out := [];
    while y0 <= yb
      invariant ya <= y0 && (y0 <= yb + 1 || y0 == ya)
      invariant out == Emit(d, VRun(x, ya, y0 - 1), color)
    {
      EmitSnoc(d, VRun(x, ya, y0 - 1), Point(x, y0), color);
      out := out + Plot(d, Point(x, y0), color);
      y0 := y0 + 1;
    }
  }

  /** The horizontal shortcut of __paint_line, after the endpoints are ordered. */
  method PaintHorizontal(d: Device, xa: int, xb: int, y: int, color: Color)
    returns (out: seq<Write>)
    ensures out == Emit(d, HRun(xa, xb, y), color)
  {
    var x0 := xa;
    out := [];
    while x0 <= xb
      invariant xa <= x0 && (x0 <= xb + 1 || x0 == xa)
      invariant out == Emit(d, HRun(xa, x0 - 1, y), color)
    {
      EmitSnoc(d, HRun(xa, x0 - 1, y), Point(x0, y), color);
      out := out + Plot(d, Point(x0, y), color);
      x0 := x0 + 1;
    }
  }

  /** The x-driven Bresenham loop of __paint_line (|dx| > |dy| > 0), after the
      endpoints are ordered so that x increases. */
  method PaintXDriven(d: Device, xs: int, ys: int, x1: int, y1: int, color: Color)
    returns (out: seq<Write>)
    requires xs < x1 && ys != y1 && Abs(x1 - xs) > Abs(y1 - ys)
    ensures out == XWrites(d, xs, ys, ys > y1, x1 - xs, Abs(y1 - ys), x1 - xs + 1, color)
  {
    var x0, y0 := xs, ys;
    var mx := x1 - x0;
    var my := Abs(y1 - y0);
    var e := my - mx;
    ghost var down := y0 > y1;
    ghost var t, k := 0, 0;
    assert y1 == Toward(ys, down, my);
    out := [];
    while x0 <= x1
      invariant xs <= x0 <= x1 + 1
      invariant out == XWrites(d, xs, ys, down, mx, my, k, color)
      invariant k == x0 - xs
      invariant ErrState(t, e) == Bres(k, mx, my)
      invariant x0 <= x1 ==> y0 == Toward(ys, down, t)
    {
      ghost var t0, e0, p0 := t, e, y0;
      out := out + Plot(d, Point(x0, y0), color);
      assert out == XWrites(d, xs, ys, down, mx, my, k + 1, color);
      x0 := x0 + 1;
      e := e + my;
      if e > 0 {
        y0 := y0 + (if y0 > y1 then -1 else 1);
        e := e - mx;
        t := t + 1;
      }
      MinorAdvance(k, t0, e0, p0, t, e, y0, mx, my, ys, down, y1);
      k := k + 1;
    }
  }

  /** The y-driven Bresenham loop of __paint_line (|dy| >= |dx| > 0), after the
      endpoints are ordered so that y increases. Each iteration also calls
      gfx_draw_point, which paints the context cursor. */
  method PaintYDriven(d: Device, xs: int, ys: int, x1: int, y1: int, color: Color)
    returns (out: seq<Write>)
    requires ys < y1 && xs != x1 && Abs(y1 - ys) >= Abs(x1 - xs)
    ensures out == YWrites(d, xs, ys, xs > x1, y1 - ys, Abs(x1 - xs), y1 - ys + 1, color)
  {
    var x0, y0 := xs, ys;
    var my := y1 - y0;
    var mx := Abs(x1 - x0);
    var e := mx - my;
    ghost var down := x0 > x1;
    ghost var t, k := 0, 0;
    assert x1 == Toward(xs, down, mx);
    out := [];
    while y0 <= y1
      invariant ys <= y0 <= y1 + 1
      invariant out == YWrites(d, xs, ys, down, my, mx, k, color)
      invariant k == y0 - ys
      invariant ErrState(t, e) == Bres(k, my, mx)
      invariant y0 <= y1 ==> x0 == Toward(xs, down, t)
    {
      ghost var t0, e0, p0 := t, e, x0;
      out := out + Plot(d, Point(x0, y0), color);
      out := out + Plot(d, d.cursor, color);
      assert out == YWrites(d, xs, ys, down, my, mx, k + 1, color);
      y0 := y0 + 1;
      e := e + mx;
      if e > 0 {
        x0 := x0 + (if x0 > x1 then -1 else 1);
        e := e - my;
        t := t + 1;
      }
      MinorAdvance(k, t0, e0, p0, t, e, x0, my, mx, xs, down, x1);
      k := k + 1;
    }
  }
}
