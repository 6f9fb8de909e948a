// The pixel sink adapter (__paint_pixel, lib/src/gfx.c:94-127) and the write
// log that stands for the user's pixel callback.

module Sink {
  import opened GfxHeader

  /** A user-space coordinate pair. */
  datatype Point = Point(x: int, y: int)

  /** One call of the pixel callback: device coordinates and colour. */
  datatype Write = Write(x: int, y: int, color: Color)

  /** What __paint_pixel and gfx_draw_point read from the context: the display
      size, whether GFX_DISPLAY_INVERT is set, and the drawing cursor (cx, cy).
      The user-to-device transform is the identity (rotation angle 0), so the
      rotation origin plays no part. */
  datatype Device = Device(w: int, h: int, mirrored: bool, cursor: Point)

  predicate OnScreen(d: Device, p: Point)
  {
    0 <= p.x < d.w && 0 <= p.y < d.h
  }

  /** The device x of an on-screen x, reflected as (w - 1) - x when mirroring is on. */
  function DeviceX(d: Device, x: int): int
  {
    if d.mirrored then (d.w - 1) - x else x
  }

  /** __paint_pixel: clip to [0, w) x [0, h), then mirror x, then one callback. */
  function Plot(d: Device, p: Point, c: Color): (ws: seq<Write>)
    ensures |ws| == (if OnScreen(d, p) then 1 else 0)
    ensures forall wr <- ws :: 0 <= wr.x < d.w && 0 <= wr.y < d.h && wr.color == c
    ensures forall wr <- ws :: wr.x == DeviceX(d, p.x) && wr.y == p.y
  {
    if (p.x < 0) || (p.x >= d.w) || (p.y < 0) || (p.y >= d.h) then []
    else [Write(DeviceX(d, p.x), p.y, c)]
  }

  /** The callbacks made by painting the points `pts` in order with colour `c`. */
  function Emit(d: Device, pts: seq<Point>, c: Color): (ws: seq<Write>)
  {
    if pts == [] then [] else Emit(d, pts[..|pts| - 1], c) + Plot(d, pts[|pts| - 1], c)
  }

  /** At most one callback per point, every one on screen and in the given colour. */
  lemma {:induction false} EmitBounds(d: Device, pts: seq<Point>, c: Color)
    ensures |Emit(d, pts, c)| <= |pts|
    ensures forall wr <- Emit(d, pts, c) :: 0 <= wr.x < d.w && 0 <= wr.y < d.h && wr.color == c
    decreases |pts|
  {
    if pts != [] {
      EmitBounds(d, pts[..|pts| - 1], c);
    }
  }

  lemma EmitSnoc(d: Device, pts: seq<Point>, p: Point, c: Color)
    ensures Emit(d, pts + [p], c) == Emit(d, pts, c) + Plot(d, p, c)
  {
    assert (pts + [p])[..|pts|] == pts;
  }

  /** Painting a concatenation makes the callbacks of each part in turn. */
  lemma {:induction false} EmitAppend(d: Device, a: seq<Point>, b: seq<Point>, c: Color)
    ensures Emit(d, a + b, c) == Emit(d, a, c) + Emit(d, b, c)
    decreases |b|
  {
    if b == [] {
      assert a + b == a;
    } else {
      var b' := b[..|b| - 1];
      assert a + b == (a + b') + [b[|b| - 1]];
      assert b == b' + [b[|b| - 1]];
      EmitAppend(d, a, b', c);
      EmitSnoc(d, a + b', b[|b| - 1], c);
      EmitSnoc(d, b', b[|b| - 1], c);
    }
  }

  /** Painting four parts in turn makes the callbacks of each part in turn. */
  lemma EmitFour(d: Device, a: seq<Point>, b: seq<Point>, e: seq<Point>, f: seq<Point>, c: Color)
    ensures Emit(d, a + b + e + f, c) == Emit(d, a, c) + Emit(d, b, c) + Emit(d, e, c) + Emit(d, f, c)
  {
    EmitAppend(d, a + b + e, f, c);
    EmitAppend(d, a + b, e, c);
    EmitAppend(d, a, b, c);
  }

  /** A callback is made for a write exactly when some on-screen point maps to it. */
  lemma {:induction false} EmitMember(d: Device, pts: seq<Point>, c: Color, wr: Write)
    ensures wr in Emit(d, pts, c) <==>
              exists i :: 0 <= i < |pts| && OnScreen(d, pts[i]) &&
                          wr == Write(DeviceX(d, pts[i].x), pts[i].y, c)
    decreases |pts|
  {
    if pts != [] {
      var init := pts[..|pts| - 1];
      EmitMember(d, init, c, wr);
      if wr in Emit(d, pts, c) && wr !in Emit(d, init, c) {
        var i := |pts| - 1;
        assert OnScreen(d, pts[i]) && wr == Write(DeviceX(d, pts[i].x), pts[i].y, c);
      }
      if exists i :: 0 <= i < |pts| && OnScreen(d, pts[i]) &&
                     wr == Write(DeviceX(d, pts[i].x), pts[i].y, c) {
        var i :| 0 <= i < |pts| && OnScreen(d, pts[i]) &&
                 wr == Write(DeviceX(d, pts[i].x), pts[i].y, c);
        if i < |pts| - 1 {
          assert init[i] == pts[i];
        }
      }
    }
  }

  /** A callback is made exactly for the on-screen pixels whose points are
      painted: undoing the mirroring of its x gives back a painted point. */
  lemma EmitPixel(d: Device, pts: seq<Point>, c: Color, wr: Write)
    ensures wr in Emit(d, pts, c) <==>
              wr.color == c && 0 <= wr.x < d.w && 0 <= wr.y < d.h && Point(DeviceX(d, wr.x), wr.y) in pts
  {
    EmitMember(d, pts, c, wr);
    var p := Point(DeviceX(d, wr.x), wr.y);
    if wr in Emit(d, pts, c) {
      var i :| 0 <= i < |pts| && OnScreen(d, pts[i]) && wr == Write(DeviceX(d, pts[i].x), pts[i].y, c);
      assert pts[i] == p;
    }
    if wr.color == c && 0 <= wr.x < d.w && 0 <= wr.y < d.h && p in pts {
      var i :| 0 <= i < |pts| && pts[i] == p;
      assert OnScreen(d, pts[i]) && wr == Write(DeviceX(d, pts[i].x), pts[i].y, c);
    }
  }

  /** When every point is on screen, each point makes exactly one callback, in order. */
  lemma {:induction false} EmitAllOnScreen(d: Device, pts: seq<Point>, c: Color)
    requires forall i :: 0 <= i < |pts| ==> OnScreen(d, pts[i])
    ensures |Emit(d, pts, c)| == |pts|
    ensures forall i :: 0 <= i < |pts| ==>
              Emit(d, pts, c)[i] == Write(DeviceX(d, pts[i].x), pts[i].y, c)
    decreases |pts|
  {
    if pts != [] {
      var init := pts[..|pts| - 1];
      EmitAllOnScreen(d, init, c);
    }
  }

  /** When no point is on screen there is no callback at all. */
  lemma {:induction false} EmitNoneOnScreen(d: Device, pts: seq<Point>, c: Color)
    requires forall i :: 0 <= i < |pts| ==> !OnScreen(d, pts[i])
    ensures Emit(d, pts, c) == []
    decreases |pts|
  {
    if pts != [] {
      EmitNoneOnScreen(d, pts[..|pts| - 1], c);
    }
  }

  /** Reflect the x of every write across the display. */
  function MirrorWrites(w: int, ws: seq<Write>): (r: seq<Write>)
    ensures |r| == |ws|
    ensures forall i :: 0 <= i < |ws| ==> r[i] == ws[i].(x := (w - 1) - ws[i].x)
  {
    if ws == [] then [] else [ws[0].(x := (w - 1) - ws[0].x)] + MirrorWrites(w, ws[1..])
  }

  lemma MirrorAppend(w: int, a: seq<Write>, b: seq<Write>)
    ensures MirrorWrites(w, a + b) == MirrorWrites(w, a) + MirrorWrites(w, b)
  {
    var l, r := MirrorWrites(w, a + b), MirrorWrites(w, a) + MirrorWrites(w, b);
    assert |l| == |r|;
    forall i | 0 <= i < |l| ensures l[i] == r[i] {
      if i < |a| {
        assert (a + b)[i] == a[i];
      } else {
        assert (a + b)[i] == b[i - |a|];
      }
    }
  }

  /** Reflecting twice gives back the original writes. */
  lemma MirrorTwice(w: int, ws: seq<Write>)
    ensures MirrorWrites(w, MirrorWrites(w, ws)) == ws
  {
    var r := MirrorWrites(w, MirrorWrites(w, ws));
    forall i | 0 <= i < |ws| ensures r[i] == ws[i] {
    }
  }

  /** Mirroring on gives exactly the unmirrored callbacks with x reflected. */
  lemma {:induction false} EmitMirrored(d: Device, pts: seq<Point>, c: Color)
    ensures Emit(d.(mirrored := true), pts, c) ==
              MirrorWrites(d.w, Emit(d.(mirrored := false), pts, c))
    decreases |pts|
  {
    if pts != [] {
      var init, last := pts[..|pts| - 1], pts[|pts| - 1];
      EmitMirrored(d, init, c);
      MirrorAppend(d.w, Emit(d.(mirrored := false), init, c), Plot(d.(mirrored := false), last, c));
    }
  }
}
