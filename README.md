# A verified model of the gfx software rasteriser

This project models the core of the `gfx` library: the software rasteriser
in `lib/src/gfx.c` and the value types in `include/gfx.h`.

The rasteriser turns points, lines, circles, triangles, rectangles, rounded
rectangles and bitmap-font text into calls to a user-supplied pixel
callback. `__paint_pixel` clips those calls to the display and mirrors them
when the display is inverted.

How the model is built:

- **The pixel callback is a write log.** Each rasteriser is a method that
  takes a snapshot of the device and returns the writes it makes, in order.
  A device snapshot holds the width, the height, the mirror flag and the
  drawing cursor. A write is an x, a y and a colour.
- **Each rasteriser has a specification.** A function gives the sequence of
  user-space points the rasteriser visits. `Sink.Emit` passes those points
  through the model of `__paint_pixel`. Every method's `ensures` ties its
  output to the emitted specification.
- **Lemmas say what the visited points are.** They cover membership,
  ordering, symmetry, bounds and how one shape relates to another.
- **The context is a class.** `Graphics.Context` is the `GFX_CTX` record.
  Its fields are the display size, the rotation origin, the drawing cursor,
  the text state, the selected glyph table and the flag word, plus the
  write log.
- **Every public `gfx_*` call of the core is a method or function of
  `Context`.** The method's `ensures` gives its whole new state.
- **Both rotations are the identity.** These are the drawing rotation and the
  text rotation, at angle 0.

Modules:

| file | module | models |
|---|---|---|
| gfx_header.dfy | GfxHeader | the colour union, `COLOR`, `SAME_COLOR`, the flag bits, the font record |
| arith.dfy | Arith | C division and the arithmetic shift the rasteriser uses |
| sink.dfy | Sink | `__paint_pixel`: clipping and mirroring into the write log |
| line.dfy, line_facts.dfy | Line, LineFacts | `__paint_line`, its Bresenham stepping and the shape of the lines it draws |
| scan.dfy | Scan | row-major scans of a bounding box, shared by the triangle and rectangle rasterisers |
| quadrant.dfy | Quadrant | `__paint_quadrant`: the circle-octant walk and its corner reflections |
| triangle.dfy | Triangle | `__paint_triangle`: the 28.4 fixed-point half-space test |
| rectangles.dfy | Rectangles | `__paint_rectangle`, `gfx_draw_rectangle`, `gfx_fill_rectangle`, `gfx_fill_screen` |
| shapes.dfy | Shapes | `gfx_draw_circle`, `gfx_fill_circle`, `gfx_draw_triangle`, `gfx_fill_triangle` |
| rounded.dfy | Rounded | `gfx_draw_rounded_rectangle`, `gfx_fill_rounded_rectangle` |
| glyph.dfy | Glyph | `__paint_glyph`: the bit-cells of a glyph and the pixels or squares they paint |
| context.dfy | Graphics | `GFX_CTX`, `gfx_init` and the public setters, getters, shape calls and text calls |

## Model

| member | source | states |
|---|---|---|
| GfxHeader.Raw | include/gfx.h:27-35 | the raw word of a colour has blue in its low byte and alpha in its high byte |
| GfxHeader.FromRaw | include/gfx.h:27-35 | reading the channels back out of a raw word gives a colour whose raw word is that word |
| GfxHeader.RawRoundTrip | include/gfx.h:27-35 | turning a colour into its raw word and back gives the same colour |
| GfxHeader.Truncate8 | include/gfx.h:29-32 | storing a value in an 8-bit channel keeps it modulo 256 |
| GfxHeader.Rgb | include/gfx.h:37 | `COLOR` is opaque (alpha 0xff); each channel equals its argument modulo 256 |
| GfxHeader.SameRaw | include/gfx.h:38-40 | `SAME_COLOR` holds exactly when the two raw words agree in their low 24 bits, the red, green and blue bytes |
| GfxHeader.RawLow | include/gfx.h:27-35 | the low 24 bits of the raw word are blue, green and red from the low byte up, and each can be read back from them |
| GfxHeader.SameIgnoresAlpha | include/gfx.h:38-40 | `SAME_COLOR` ignores alpha: colours that differ only in alpha are the same, yet unequal |
| GfxHeader.SameIsEquivalence | include/gfx.h:38-40 | `SAME_COLOR` is reflexive, symmetric and transitive |
| GfxHeader.SameRgb | include/gfx.h:37-40 | two `COLOR` values are the same exactly when their channels agree modulo 256; for channels already in 0..255 that means equal arguments; for `COLOR` values, same and equal coincide |
| GfxHeader.FlagsAreDistinctBits | include/gfx.h:21-25 | the five flag constants are single bits and no two of them overlap |
| GfxHeader.SetInvert | lib/src/gfx.c:1083-1090 | setting or clearing the invert flag leaves that bit equal to the request and every other bit unchanged |
| GfxHeader.SetInvertRoundTrip | lib/src/gfx.c:1083-1090 | restoring the old setting gives back the original flag word; setting the same value twice equals setting it once |
| Arith.CDiv | lib/src/gfx.c:39-40 | C's `/` truncates toward zero: the quotient's magnitude is the quotient of the magnitudes, and its sign follows the operands' signs |
| Arith.ShiftRight4 | lib/src/gfx.c:394-397 | an arithmetic shift right by 4 is floor division by 16 |
| Sink.Plot | lib/src/gfx.c:94-127 | a point off the display makes no write; a point on it makes one on-screen write of the given colour at the mirrored-or-not column |
| Sink.EmitBounds | lib/src/gfx.c:94-127 | emitting points never makes more writes than there are points; every write is on screen and has the given colour |
| Sink.EmitMember | lib/src/gfx.c:94-127 | a write is emitted exactly when some on-screen point maps to it |
| Sink.EmitPixel | lib/src/gfx.c:94-127 | a write is emitted exactly when it is on screen, has the given colour, and comes from a visited point at its row and (un)mirrored column |
| Sink.EmitAllOnScreen | lib/src/gfx.c:111-115 | when every point is on screen, there is one write per point, in order |
| Sink.EmitNoneOnScreen | lib/src/gfx.c:111-115 | when no point is on screen, nothing is written |
| Sink.MirrorTwice | lib/src/gfx.c:121-123 | mirroring the columns twice restores the writes |
| Sink.EmitMirrored | lib/src/gfx.c:121-123 | emitting on a mirrored device gives the unmirrored writes with each column reflected |
| Line.PaintLine | lib/src/gfx.c:140-234 | the writes of `__paint_line` are the emitted points of the line's specification |
| Line.PaintDiagonal | lib/src/gfx.c:187-231 | a line that is neither horizontal nor vertical writes the emitted points of its Bresenham run |
| Line.PaintVertical | lib/src/gfx.c:156-164 | a vertical line writes its column from the lower to the upper y |
| Line.PaintHorizontal | lib/src/gfx.c:167-175 | a horizontal line writes its row from the lower to the upper x |
| Line.PaintXDriven | lib/src/gfx.c:199-208 | the x-driven loop writes one pixel per column, with its row given by the error recurrence |
| Line.PaintYDriven | lib/src/gfx.c:221-231 | the y-driven loop writes one pixel per row, with its column given by the error recurrence, and after each one a write at the drawing cursor |
| Line.XDiagonalSwapped | lib/src/gfx.c:189-198 | an x-driven line given right to left has its ends swapped and is drawn from its left end, stepping toward the other end's row |
| Line.XDiagonalInOrder | lib/src/gfx.c:189-208 | an x-driven line given left to right is drawn from its left end |
| Line.YDiagonalSwapped | lib/src/gfx.c:211-220 | a y-driven line given with its second end higher has its ends swapped and is drawn from the end with the smaller y |
| Line.YDiagonalInOrder | lib/src/gfx.c:209-231 | a y-driven line given top to bottom is drawn from its first end |
| Line.StepEnds | lib/src/gfx.c:199-207 | the Bresenham minor offset is 0 at the first pixel and the full minor distance at the last |
| Line.StepWithin | lib/src/gfx.c:199-207 | at every step the minor offset is less than one pixel from the ideal line, and between 0 and the minor distance |
| Line.StepIncrement | lib/src/gfx.c:199-207 | from one pixel to the next, the minor offset grows by 0 or 1 |
| Line.ErrorStep | lib/src/gfx.c:199-207 | one update of the error term keeps it in range and advances the minor offset exactly when it should |
| Line.BresIsStep | lib/src/gfx.c:199-207 | the error recurrence as written computes the closed-form minor offset at every step |
| LineFacts.HRunPixels | lib/src/gfx.c:167-175 | a horizontal run has one pixel per column between its ends, left to right |
| LineFacts.HRunMember | lib/src/gfx.c:167-175 | a point is on a horizontal run exactly when it is on its row between its ends |
| LineFacts.VRunPixels | lib/src/gfx.c:156-164 | a vertical run has one pixel per row between its ends, top to bottom |
| LineFacts.VRunMember | lib/src/gfx.c:156-164 | a point is on a vertical run exactly when it is in its column between its ends |
| LineFacts.XRunPixels | lib/src/gfx.c:199-207 | the x-driven run has exactly one pixel per column, with its row offset given by the closed form |
| LineFacts.YRunPixels | lib/src/gfx.c:221-231 | the y-driven run alternates a line pixel per row with a write at the drawing cursor |
| LineFacts.XRunEnds | lib/src/gfx.c:187-208 | an x-driven line starts at its first endpoint and ends exactly at its second |
| LineFacts.XRunNear | lib/src/gfx.c:187-208 | every pixel of an x-driven line lies between the endpoints' rows, less than one pixel from the ideal line, and at most one row from its neighbour |
| LineFacts.YRunEnds | lib/src/gfx.c:209-231 | a y-driven line starts at its first endpoint and ends exactly at its second |
| LineFacts.YRunNear | lib/src/gfx.c:209-231 | every pixel of a y-driven line lies between the endpoints' columns and less than one pixel from the ideal line |
| LineFacts.YRunConnected | lib/src/gfx.c:209-231 | consecutive line pixels of a y-driven line are at most one column apart |
| LineFacts.LineSymmetric | lib/src/gfx.c:140-234 | swapping a line's endpoints does not change the pixels it visits or their order |
| LineFacts.DiagonalSymmetric | lib/src/gfx.c:187-231 | swapping the endpoints of a sloped line gives the same run |
| LineFacts.XDiagonalFrom | lib/src/gfx.c:189-198 | an x-driven line is the run from its left end, whichever order the ends are given in |
| LineFacts.YDiagonalFrom | lib/src/gfx.c:211-220 | a y-driven line is the run from its upper end, whichever order the ends are given in |
| LineFacts.SlopeOneLine | lib/src/gfx.c:209-231 | a 45-degree line visits each diagonal pixel, each followed by a write at the drawing cursor |
| LineFacts.SlopeOneMember | lib/src/gfx.c:209-231 | the points of a 45-degree line are exactly its diagonal pixels and the drawing cursor |
| LineFacts.HorizontalMember | lib/src/gfx.c:167-175 | a horizontal line's points are exactly its row between its ends |
| LineFacts.VerticalMember | lib/src/gfx.c:156-164 | a vertical line's points are exactly its column between its ends |
| LineFacts.LineHasEnds | lib/src/gfx.c:140-234 | every line paints both of its endpoints |
| LineFacts.DiagonalHasEnds | lib/src/gfx.c:187-231 | every sloped line paints both of its endpoints |
| LineFacts.HorizontalRun | lib/src/gfx.c:167-175 | a horizontal line is the run from its smaller x to its larger x |
| LineFacts.VerticalRun | lib/src/gfx.c:156-164 | a vertical line is the run from its smaller y to its larger y |
| Scan.RowPointsMember | lib/src/gfx.c:419-435 | a scanned row holds exactly the kept points of that row in its columns |
| Scan.BoxPointsMember | lib/src/gfx.c:419-435 | a scanned box holds exactly the kept points inside the box |
| Scan.RowPointsOrdered | lib/src/gfx.c:419-435 | a scanned row is in increasing x and lies inside the row |
| Scan.BoxPointsOrdered | lib/src/gfx.c:419-435 | a box scan is in row-major order and lies inside the box |
| Scan.BoxWritesStep | lib/src/gfx.c:419-435 | scanning one more row appends that row's callbacks to those of the rows above |
| Scan.RowMajorDistinct | lib/src/gfx.c:419-435 | a row-major sequence visits no point twice |
| Quadrant.PaintQuadrant | lib/src/gfx.c:262-325 | the writes of `__paint_quadrant` are the emitted points of the selected quadrants of the circle |
| Quadrant.PaintSweeps | lib/src/gfx.c:266-324 | the walk loop emits the arcs of every step up to where x falls below y |
| Quadrant.PaintArc | lib/src/gfx.c:269-316 | one step of the walk emits its reflection into each corner whose bit is set, in the order the code tests them |
| Quadrant.PaintSelected | lib/src/gfx.c:269-316 | a corner is drawn only when its bit is set in `quad` |
| Quadrant.PaintCorner | lib/src/gfx.c:269-316 | a corner paints two rim points as an outline, or two horizontal spans when filled |
| Quadrant.NextOnTrack | lib/src/gfx.c:317-323 | one error update keeps the walk on the circle's rim |
| Quadrant.VisitInvariant | lib/src/gfx.c:266-324 | after n steps, x - y has dropped by n and the walk is still on the rim |
| Quadrant.SweepCount | lib/src/gfx.c:268 | the loop runs exactly while x >= y, and stops |
| Quadrant.VisitOnRim | lib/src/gfx.c:266-324 | every visited (x, y) lies in the octant 0 <= y <= x <= r, inside r*r + 1 and with its outer neighbour outside it |
| Quadrant.CornerPointShape | lib/src/gfx.c:269-316 | a corner's points lie in that corner and on the visited row or column; an outline paints only the two rim points |
| Quadrant.CornerMember | lib/src/gfx.c:269-316 | a point belongs to a corner exactly when it is one of the corner's two rim pixels, or the corner is filled and the point lies on one of its two spans |
| Quadrant.ArcPointCorner | lib/src/gfx.c:269-316 | every point of a step comes from a corner whose bit is set |
| Quadrant.ArcSplit | lib/src/gfx.c:269-316 | one step of the walk paints the south-east, south-west, north-west and north-east corners in that order, each only when selected |
| Quadrant.QuadrantInDisc | lib/src/gfx.c:262-325 | every painted point lies in a selected corner and within the disc; outline points also sit on the rim |
| Quadrant.QuadUnion | lib/src/gfx.c:262-325 | painting with the union of two corner masks paints exactly the union of the two paintings |
| Quadrant.QuadrantEmpty | lib/src/gfx.c:262-325 | with no corner bit set, or a negative radius, nothing is painted |
| Quadrant.CornerMirrorX | lib/src/gfx.c:269-316 | mirroring a corner's point across the centre column gives a point of the horizontally opposite corner |
| Quadrant.CornerMirrorY | lib/src/gfx.c:269-316 | mirroring a corner's point across the centre row gives a point of the vertically opposite corner |
| Quadrant.CornerTranspose | lib/src/gfx.c:269-316 | swapping the offsets of an outline point gives a point of the transposed corner |
| Quadrant.CircleSymmetric | lib/src/gfx.c:262-325 | a full circle is symmetric about its centre row and column, and its outline also about the diagonal |
| Quadrant.CornerOutlineInFill | lib/src/gfx.c:269-316 | every outline point of a corner is also painted by the filled corner |
| Quadrant.QuadrantOutlineInFill | lib/src/gfx.c:262-325 | the outline of any quadrant selection is contained in its fill |
| Quadrant.QuadrantRimStart | lib/src/gfx.c:262-325 | each selected corner paints both of its axis points at distance r |
| Quadrant.SingleCornerBox | lib/src/gfx.c:262-325 | a single corner paints only inside its r-by-r square |
| Triangle.Min3 | lib/src/gfx.c:64-69 | the minimum of three is one of them and no larger than any |
| Triangle.Max3 | lib/src/gfx.c:64-69 | the maximum of three is one of them and no smaller than any |
| Triangle.PaintTriangle | lib/src/gfx.c:337-436 | the writes of `__paint_triangle` are the emitted points of the closed triangle, scanned over its bounding box; collinear vertices draw the box's diagonal |
| Triangle.HalfEdge | lib/src/gfx.c:376-417 | the fixed-point deltas are 256 times the edge vector; the starting value is -256 times the edge orientation at the box corner, plus a bias of 0 or 1 |
| Triangle.TriangleScan | lib/src/gfx.c:394-435 | scanning the bounding box with the reordered edge tests gives exactly the triangle's point sequence |
| Triangle.ScanBox | lib/src/gfx.c:419-435 | the row loop writes the box scan of the covered points, row by row |
| Triangle.ScanRow | lib/src/gfx.c:424-431 | the column loop writes the covered points of one row, left to right |
| Triangle.ScanNextRow | lib/src/gfx.c:419-434 | one pass of the row loop appends row y to the scan of the rows above, and the three edge values step to the next row exactly as the edge functions there |
| Triangle.BiasIneffective | lib/src/gfx.c:405-413 | with a 0-or-1 bias and a test `>= 0` on a multiple of 256, the bias makes no difference: an edge pixel passes exactly when its orientation is <= 0 |
| Triangle.EdgeStepX | lib/src/gfx.c:428-430 | subtracting the y-delta advances an edge function by one column |
| Triangle.EdgeStepY | lib/src/gfx.c:432-434 | adding the x-delta advances an edge function by one row |
| Triangle.FixedPointEdge | lib/src/gfx.c:400-417 | the 28.4 edge constant, evaluated at a pixel, is -256 times the edge orientation there |
| Triangle.BoxCorners | lib/src/gfx.c:394-397 | rounding the 28.4 bounding box back to pixels gives the integer bounding box of the vertices |
| Triangle.CoveredIsInside | lib/src/gfx.c:358-373 | after reordering for a negative cross product, the three edge tests pass exactly on the closed triangle |
| Triangle.InTriangleInBox | lib/src/gfx.c:394-397 | every point of a proper triangle lies in its vertices' bounding box |
| Triangle.TriangleMember | lib/src/gfx.c:337-436 | a proper triangle paints exactly the points of the closed triangle |
| Triangle.TriangleOrdered | lib/src/gfx.c:419-435 | a proper triangle is painted in row-major order, each point once |
| Triangle.VerticesPainted | lib/src/gfx.c:337-436 | a proper triangle paints its three vertices |
| Triangle.TriangleRotate | lib/src/gfx.c:358-373 | rotating the vertex order does not change what is painted or its order |
| Triangle.TriangleSwap | lib/src/gfx.c:358-373 | swapping two vertices does not change what is painted or its order |
| Triangle.SameTriangle | lib/src/gfx.c:337-436 | two vertex triples with the same degeneracy, the same bounding box and the same closed region paint the same points in the same order |
| Triangle.EdgePainted | lib/src/gfx.c:405-431 | every lattice point of an edge of a proper triangle is painted: the fill is closed on its edges |
| Triangle.OrientOnSegment | lib/src/gfx.c:376-417 | on a point of the segment a-b, the edge function of a-b is zero and the other two are the shares (m - k)/m and k/m of their values at the opposite corners |
| Triangle.SharedEdge | lib/src/gfx.c:405-431 | two proper triangles with a common edge, in either direction, both paint every lattice point of it, so adjacent triangles overdraw their common edge |
| Triangle.CollinearBoxDiagonal | lib/src/gfx.c:358-364 | collinear vertices on an anti-diagonal paint the other diagonal of their box, so the top-left to bottom-right line is drawn whatever the vertices' slope |
| Triangle.CollinearBoxLine | lib/src/gfx.c:358-364 | collinear vertices have a zero cross product and paint the line from the box's top-left to its bottom-right corner |
| Triangle.HalvesCoverBox | lib/src/gfx.c:985-990 | the two right triangles that make up a square together paint exactly the square |
| Triangle.HalvesCoverProperBox | lib/src/gfx.c:985-990 | the same holds for a box with distinct corners |
| Triangle.HalvesCoverThinBox | lib/src/gfx.c:985-990 | the same holds for a box one pixel wide or tall, where both halves are lines |
| Triangle.PaintHalves | lib/src/gfx.c:985-990 | painting the two halves writes the emitted points of both triangles, lower one first |
| Triangle.HalvesMember | lib/src/gfx.c:985-990 | a point is painted by the two halves exactly when it lies between the box's corners |
| Rectangles.PaintRectangle | lib/src/gfx.c:244-251 | `__paint_rectangle` writes the rows y .. y + h - 1 top to bottom, each the line from column x to column x + (w - 1) |
| Rectangles.PaintRow | lib/src/gfx.c:244-251 | one row of `__paint_rectangle` writes the line from column x to column x + (w - 1) on that row |
| Rectangles.RectMember | lib/src/gfx.c:244-251 | a point is painted exactly when its row is one of the h rows from y and its column lies between x and x + (w - 1) |
| Rectangles.RectOrdered | lib/src/gfx.c:244-251 | the rows are painted in row-major order, each point once: the line's column count times h points, none when h <= 0 |
| Rectangles.FillRectangle | lib/src/gfx.c:639-660 | `gfx_fill_rectangle` writes the emitted points of the filled box from the cursor |
| Rectangles.FilledRectMember | lib/src/gfx.c:639-660 | the filled box covers exactly the |w| columns and |h| rows from the cursor, toward the signs of w and h, in row-major order, |w*h| points |
| Rectangles.DrawRectangle | lib/src/gfx.c:604-627 | `gfx_draw_rectangle` writes the emitted points of the four sides |
| Rectangles.OutlineMember | lib/src/gfx.c:604-627 | the outline paints exactly the points of the filled box that have a horizontal or vertical neighbour outside it |
| Rectangles.OutlineInFill | lib/src/gfx.c:604-660 | every outline point is inside the filled rectangle of the same size |
| Rectangles.FillScreen | lib/src/gfx.c:669-679 | `gfx_fill_screen` writes the emitted points of the whole display |
| Rectangles.FillScreenCovers | lib/src/gfx.c:669-679 | filling the screen writes every pixel of the display once, in that colour |
| Rectangles.ScreenHas | lib/src/gfx.c:669-679 | every on-screen pixel, in the fill colour, is among the writes of filling the screen |
| Shapes.DrawCircle | lib/src/gfx.c:546-551 | `gfx_draw_circle` writes the four-corner quadrant outline at the cursor |
| Shapes.FillCircle | lib/src/gfx.c:560-565 | `gfx_fill_circle` writes the four-corner filled quadrant at the cursor |
| Shapes.CircleShape | lib/src/gfx.c:546-565 | a circle paints nothing unless r >= 1; its points lie within the disc, outline points on the rim; the circle is symmetric |
| Shapes.CircleReachesRadius | lib/src/gfx.c:546-565 | a circle reaches distance r in all four axis directions |
| Shapes.CircleOutlineInFill | lib/src/gfx.c:546-565 | the outline circle is contained in the filled one |
| Shapes.DrawTriangle | lib/src/gfx.c:574-579 | `gfx_draw_triangle` writes the three edges from the cursor and the two offset corners |
| Shapes.OutlineCorners | lib/src/gfx.c:574-579 | the outline paints all three corners |
| Shapes.OutlineSwap | lib/src/gfx.c:574-579 | swapping the two offset corners paints the same point set |
| Shapes.FillTriangle | lib/src/gfx.c:588-593 | `gfx_fill_triangle` writes the triangle rasteriser's output for the cursor and two offset corners |
| Shapes.FilledTriangleMember | lib/src/gfx.c:588-593 | a proper filled triangle paints exactly the closed triangle, row by row, whatever the order of the offset corners |
| Rounded.RoundedGuard | lib/src/gfx.c:696-702 | a rounded rectangle is drawn exactly when 1 <= r, 2r <= w, 2r <= h and the box is not a 2r-by-2r square |
| Rounded.PaintCorners | lib/src/gfx.c:704-708 | the four corners are painted top-left, top-right, bottom-left, bottom-right |
| Rounded.DrawRoundedRectangle | lib/src/gfx.c:693-714 | a shape the guard rejects paints nothing; otherwise the writes are the four corner arcs, then the four side lines |
| Rounded.FillRoundedRectangle | lib/src/gfx.c:723-770 | a shape the guard rejects paints nothing; otherwise the writes are the four filled corners, then the side and middle strips as triangle pairs |
| Rounded.PaintSideStrips | lib/src/gfx.c:746-759 | the left and right strips between the corners are painted when h > 2r |
| Rounded.PaintMiddleStrip | lib/src/gfx.c:761-768 | the middle strip between the corner columns is painted when w > 2r |
| Rounded.CornersInBox | lib/src/gfx.c:704-708 | the corner arcs stay inside the box, in its four r-wide corner regions |
| Rounded.SidesMember | lib/src/gfx.c:710-713 | the side lines paint exactly the four edges between the corners |
| Rounded.OutlineMember | lib/src/gfx.c:693-714 | an accepted outline is exactly the corner arcs plus the side lines |
| Rounded.RoundedOutlineInBox | lib/src/gfx.c:693-714 | an accepted outline stays inside its w-by-h box |
| Rounded.RoundedOvershoot | lib/src/gfx.c:693-714 | with w == 2 and r == 1 the guard accepts, yet the outline paints a pixel left of the box |
| Rounded.RimsPainted | lib/src/gfx.c:704-708 | each corner arc paints both points where it meets the box's edges |
| Rounded.RoundedEdgesJoined | lib/src/gfx.c:704-713 | every point of the four edges between the corner arcs' ends is painted, so the outline has no gaps along the sides |
| Rounded.SideStripsMember | lib/src/gfx.c:746-759 | the side strips paint exactly the r+1-wide columns at each side between the corner rows |
| Rounded.MiddleStripMember | lib/src/gfx.c:761-768 | the middle strip paints exactly the columns between the corners over the full height |
| Rounded.FillMember | lib/src/gfx.c:723-770 | an accepted fill is exactly the filled corners plus the side and middle strips |
| Rounded.RoundedFillInBox | lib/src/gfx.c:723-770 | an accepted fill stays inside its box |
| Rounded.RoundedFillCovers | lib/src/gfx.c:723-770 | an accepted fill covers every box point outside the four corner regions, each r + 1 columns wide and r rows tall |
| Rounded.CornersOutlineInFill | lib/src/gfx.c:704-708 | the outlined corners are inside the filled corners |
| Rounded.RoundedOutlineInFill | lib/src/gfx.c:693-770 | when the box is wider than 2r and taller than 2r + 1, the outline is inside the fill |
| Glyph.GuardPassesPastTable | lib/src/gfx.c:963-971 | as written, the guard lets the code point `chars` through, although the glyph it would read starts where a table of `chars` glyphs ends |
| Glyph.GuardsDiffer | lib/src/gfx.c:963-965 | the guard as written and the corrected guard `c < chars` disagree on the code point `chars` and on no other; the corrected one is the stricter |
| Glyph.GlyphInTable | lib/src/gfx.c:963-971 | a code point below `chars` has its whole glyph, `size` bytes at offset size * c, inside a table of `chars` glyphs |
| Glyph.GlyphBytes | lib/src/gfx.c:971-1009 | the glyph of c is the `size` bytes at offset size * c of the table |
| Glyph.BitCells | lib/src/gfx.c:974-979 | the first n cells of a byte are its bits 0x40, 0x20, ... in that order, each at the offset its byte and bit index give |
| Glyph.PaintGlyph | lib/src/gfx.c:955-1011 | the writes of `__paint_glyph` are its cells' paint, byte by byte and bit by bit; the code point `chars` paints nothing, following the corrected guard (see ## Findings) |
| Glyph.PaintRows | lib/src/gfx.c:973-1010 | the byte loop paints the cells of every byte in order |
| Glyph.PaintRow | lib/src/gfx.c:974-1008 | the bit loop appends the cells of one byte to what is already painted |
| Glyph.PaintBit | lib/src/gfx.c:983-1007 | a set bit paints the foreground, a clear bit the background unless it is the same colour, else nothing |
| Glyph.PaintCell | lib/src/gfx.c:984-994 | a cell is one pixel when the magnification is at most 1, otherwise two triangles |
| Glyph.CellPointsMember | lib/src/gfx.c:984-994 | a magnified cell paints exactly the (tm+1)-by-(tm+1) square at its offset; an unmagnified one, its single pixel |
| Glyph.MagnifiedCellsOverlap | lib/src/gfx.c:984-990 | neighbouring magnified cells share a column of pixels |
| Glyph.CellWriteMember | lib/src/gfx.c:983-1007 | a cell's write is in the colour its bit selects and inside the cell's square |
| Glyph.ConcatMember | lib/src/gfx.c:973-1010 | a write of the glyph comes from one of its cells |
| Glyph.GlyphColors | lib/src/gfx.c:983-1007 | every glyph write is in the foreground, or in a background that differs from it |
| Glyph.GlyphWritesColors | lib/src/gfx.c:955-1011 | the same holds for the whole output of `__paint_glyph` |
| Glyph.RowsShape | lib/src/gfx.c:973-979 | m bytes give 7m cells, cell 7k+i from bit i of byte k |
| Glyph.GlyphCellCount | lib/src/gfx.c:963-979 | a code point beyond `chars - 1` (the corrected guard, see ## Findings), or a font with no bytes per glyph, paints nothing; any other glyph has 7 * size cells |
| Glyph.NeighbourCells | lib/src/gfx.c:976-979 | adjacent bits are tm apart along the glyph's row or column axis |
| Glyph.DescenderDrop | lib/src/gfx.c:972-977 | a descender glyph is the plain glyph moved 3 * tm lower |
| Glyph.TopBitIsNoCell | lib/src/gfx.c:972-975 | the top bit of a byte is never a cell; only the descender flag uses it |
| Graphics.Selected | lib/src/gfx.c:928-945 | `FONT_TINY` selects the tiny table and `FONT_LARGE` the large one; every other number selects the small table |
| Graphics.Strlen | lib/src/gfx.c:1067-1073 | the length counts the characters before the first NUL, or the whole sequence if there is none |
| Graphics.StrlenFull | lib/src/gfx.c:911 | a string is measured in full exactly when it holds no NUL |
| Graphics.StrlenAppend | lib/src/gfx.c:911 | the length of a concatenation is the first part's if that holds a NUL, otherwise the whole first part plus the length of the second |
| Graphics.TextSnoc | lib/src/gfx.c:1067-1073 | one more character of a string appends its glyph one advance further along |
| Graphics.TextStep | lib/src/gfx.c:1067-1073 | printing the i-th character at the text cursor extends the writes of the first i characters to those of the first i + 1, and leaves the cursor one advance further |
| Graphics.TextColors | lib/src/gfx.c:1044-1073 | every write of printed text is in the foreground, or in a background that differs from it |
| Graphics.Context.Init | lib/src/gfx.c:33-55 | the new context has the given size, rotation origin at the C-divided centre, cursor at 0, text cursor at the font height, black on white, magnification 1, no flags and an empty log |
| Graphics.Context.SetRotationOrigin | lib/src/gfx.c:474-478 | only the rotation origin changes |
| Graphics.Context.DrawPoint | lib/src/gfx.c:495-497 | the cursor pixel is appended to the log, clipped and mirrored; nothing else changes |
| Graphics.Context.MoveTo | lib/src/gfx.c:506-510 | only the cursor changes, to the given point |
| Graphics.Context.Move | lib/src/gfx.c:518-522 | only the cursor changes, by the given offset |
| Graphics.Context.DrawLine | lib/src/gfx.c:532-537 | the line from the old to the new cursor is logged and the cursor moves by the offset |
| Graphics.Context.DrawCircle | lib/src/gfx.c:546-551 | the circle outline at the cursor is logged; nothing else changes |
| Graphics.Context.FillCircle | lib/src/gfx.c:560-565 | the filled circle at the cursor is logged; nothing else changes |
| Graphics.Context.DrawTriangle | lib/src/gfx.c:574-579 | the triangle outline from the cursor is logged; nothing else changes |
| Graphics.Context.FillTriangle | lib/src/gfx.c:588-593 | the filled triangle from the cursor is logged; nothing else changes |
| Graphics.Context.DrawRectangle | lib/src/gfx.c:604-627 | the rectangle outline from the cursor is logged; nothing else changes |
| Graphics.Context.FillRectangle | lib/src/gfx.c:639-660 | the filled rectangle from the cursor is logged; nothing else changes |
| Graphics.Context.FillScreen | lib/src/gfx.c:669-679 | every display pixel is logged in the colour; nothing else changes |
| Graphics.Context.DrawRoundedRectangle | lib/src/gfx.c:693-714 | the rounded outline from the cursor is logged; nothing else changes |
| Graphics.Context.FillRoundedRectangle | lib/src/gfx.c:723-770 | the filled rounded rectangle from the cursor is logged; nothing else changes |
| Graphics.Context.SetTextCursor | lib/src/gfx.c:824-828 | only the text cursor changes |
| Graphics.Context.SetTextColor | lib/src/gfx.c:839-843 | only the text colours change |
| Graphics.Context.SetTextSize | lib/src/gfx.c:851-854 | only the magnification changes |
| Graphics.Context.GetTextHeight | lib/src/gfx.c:862-868 | the result is the line height of the font the font number selects |
| Graphics.Context.GetTextBaseline | lib/src/gfx.c:876-882 | the result is the baseline of the font the font number selects |
| Graphics.Context.GetTextWidth | lib/src/gfx.c:890-896 | the result is the character advance of the font the font number selects |
| Graphics.Context.GetStringWidth | lib/src/gfx.c:905-914 | a NULL string has width 0; a string without a NUL is as wide as its length times the magnification times the advance width |
| Graphics.Context.StringWidthBound | lib/src/gfx.c:905-914 | a NULL string has width 0; any other is at most its length times the magnified advance |
| Graphics.Context.StringWidthAppend | lib/src/gfx.c:905-914 | what follows a NUL adds nothing to a string's width; without a NUL in the first part, the widths of the two parts of a concatenation add up |
| Graphics.Context.GetFont | lib/src/gfx.c:922-925 | the number returned is the one whose table is in use |
| Graphics.Context.SetFont | lib/src/gfx.c:928-945 | returns the previous font number; `gfx_get_font` then returns the new one, and the table it selects becomes current |
| Graphics.Context.DrawGlyph | lib/src/gfx.c:1025-1028 | the glyph is logged at the text cursor in the given colours; nothing else changes |
| Graphics.Context.Putc | lib/src/gfx.c:1044-1050 | the character's glyph is logged at the text cursor, which then advances by the magnified width |
| Graphics.Context.Puts | lib/src/gfx.c:1067-1073 | the characters before the NUL are logged one advance apart, and the text cursor moves by the string's width |
| Graphics.Context.SetMirrored | lib/src/gfx.c:1083-1090 | only the invert flag changes, and later writes are mirrored exactly when m is nonzero |
| Graphics.Context.GetMirrored | lib/src/gfx.c:1093-1096 | the result is 0 or 1, and 1 exactly when writes are mirrored |

## Left out

- Rotation: `gfx_rotate`, `gfx_set_text_rotation` and the floating-point transforms they fill in are not modelled. Both rotations are the identity (angle 0). That is the state `gfx_init` leaves them in. The rotation origin is stored but has no effect.
- `lib/src/viewport.c` and every other file outside `gfx.c` and `gfx.h` are not part of this model.
- The pixel callback, the frame buffer pointer, `malloc` and `memset` become the write log. The callback's own behaviour is not modelled.
- The font tables' contents are taken as data. The model requires only what `include/gfx.h` declares: `chars` and `size` are 16-bit values, and the table holds `size` bytes for each of the `chars` characters.
- `gfx_putc` takes a `char` and passes it to `__paint_glyph`, whose parameter is `uint8_t`, so the code point is the byte value 0..255. The model's `Putc`, `Puts` and `PaintGlyph` take that byte value.
- Glyph.PaintGlyph: uses the corrected guard `c < chars`, so at the code point `c == chars` it paints nothing, whereas the source's guard lets it through and paints the bytes that follow the table (see ## Findings). `Graphics.Context.DrawGlyph`, `Graphics.Context.Putc` and `Graphics.Context.Puts` paint through it and inherit the correction.
- Glyph.PaintGlyph: when `size` is 0 or negative, the source still reads the first byte of the glyph for its descender flag and then paints nothing. The model paints nothing and does not model that read.
- The block under `#if 0` in `lib/src/gfx.c` is not modelled because it is not compiled.
- The test programs are not part of this model.
- 32-bit overflow is not modelled: C `int` arithmetic is modelled with unbounded integers. Coordinates near `INT_MAX` would wrap in the source, and the 28.4 fixed-point products can overflow in C for very large triangles.
- The NULL-font branches are not modelled: the getters return 0 and `__paint_glyph` returns early when `glyphs` is NULL. `gfx_init` and `gfx_set_font` always select a table, so these branches cannot be reached through the modelled calls.
- Graphics.Context.Putc: the source adds a float product (`width * magnify * xfrm`) to the text cursor. With the identity transform it is modelled as the integer `width * magnify`, and the y advance is 0.
- Graphics.Context.StringWidthBound: bounds the width of `gfx_get_string_width` by the string length. How the width adds up over a concatenation is `Graphics.Context.StringWidthAppend`, and the exact width, the count before the NUL times the magnified advance, is what `Graphics.Context.Puts` moves the cursor by.
- Rounded.RoundedOutlineInBox: excludes r == 1 with a side of length 2. There, as `Rounded.RoundedOvershoot` shows, the outline leaves the box.
- Rounded.RoundedOutlineInFill: requires w > 2r and h > 2r + 1. On thinner boxes the fill's strips are skipped or lines, and the inclusion is not claimed.
- Rounded.RoundedFillCovers: covers only the points outside the four corner regions, each r + 1 columns wide and r rows tall. Inside them, coverage is what the quadrant lemmas say about the filled corners.
- Triangle.PaintTriangle: a top-left fill rule is sometimes described for this rasteriser. In the code, the 0-or-1 bias cannot change a test on a multiple of 256, so the closed triangle is painted. Two triangles that share an edge both paint it (`Triangle.SharedEdge`). The model follows the code.

## Findings

| source | as written | input that shows it | evidently intended | confidence | as-written member | corrected member |
|---|---|---|---|---|---|---|
| lib/src/gfx.c:963-971 | `__paint_glyph` turns a code point away only when it is greater than `chars`, then reads the glyph at offset size * c | a font with `chars` = 2, `size` = 1 and a two-byte table, and c = 2: the guard lets c through and the glyph byte read is the one after the table | reject every code point at or beyond `chars`, the number of characters in the font | high that the read falls outside the table; not executed | Glyph.GuardPassesPastTable | Glyph.GlyphInTable |
