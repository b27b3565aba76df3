/** The 2×2 layout of the four-view script: the normalised viewport of
    each view number, the inverse lookup from a mouse position to a view
    number, and the point ids of the white border drawn around a view. */
module FourViewLayout {

  /** `[xmin, ymin, xmax, ymax]` in normalised viewport coordinates
      (origin at the lower left of the window). */
  datatype Viewport = Viewport(xmin: real, ymin: real, xmax: real, ymax: real)

  const FullWindow: Viewport := Viewport(0.0, 0.0, 1.0, 1.0)

  /** `getViewport`: views 0 and 1 fill the upper row, 2 and 3 the lower
      row, even numbers on the left; any other number gets the whole
      window. */
  function GetViewport(viewNr: int): (vp: Viewport)
    ensures 0.0 <= vp.xmin < vp.xmax <= 1.0 && 0.0 <= vp.ymin < vp.ymax <= 1.0
    ensures 0 <= viewNr <= 3 ==> vp.xmax - vp.xmin == 0.5 && vp.ymax - vp.ymin == 0.5
    ensures 0 <= viewNr <= 3 ==> vp.xmin == (if viewNr % 2 == 0 then 0.0 else 0.5)
    ensures 0 <= viewNr <= 3 ==> vp.ymin == (if viewNr < 2 then 0.5 else 0.0)
    ensures !(0 <= viewNr <= 3) ==> vp == FullWindow
  {
    if viewNr == 0 then Viewport(0.0, 0.5, 0.5, 1.0)
    else if viewNr == 1 then Viewport(0.5, 0.5, 1.0, 1.0)
    else if viewNr == 2 then Viewport(0.0, 0.0, 0.5, 0.5)
    else if viewNr == 3 then Viewport(0.5, 0.0, 1.0, 0.5)
    else FullWindow
  }

  predicate Contains(vp: Viewport, x: real, y: real)
  {
    vp.xmin <= x <= vp.xmax && vp.ymin <= y <= vp.ymax
  }

  predicate InInterior(vp: Viewport, x: real, y: real)
  {
    vp.xmin < x < vp.xmax && vp.ymin < y < vp.ymax
  }

  /** The four quadrants cover the unit square and no two of them share
      an interior point. */
  lemma QuadrantsTile(x: real, y: real)
    ensures 0.0 <= x <= 1.0 && 0.0 <= y <= 1.0 ==> exists v :: 0 <= v <= 3 && Contains(GetViewport(v), x, y)
    ensures forall v, w :: 0 <= v < w <= 3 ==> !(InInterior(GetViewport(v), x, y) && InInterior(GetViewport(w), x, y))
  {
    if 0.0 <= x <= 1.0 && 0.0 <= y <= 1.0 {
      var v := if x <= 0.5 then (if y >= 0.5 then 0 else 2) else (if y >= 0.5 then 1 else 3);
      assert Contains(GetViewport(v), x, y);
    }
  }

  /** `mouse/size` in exact arithmetic. */
  function Ratio(mouse: int, size: int): real
    requires size > 0
  {
    mouse as real / size as real
  }

  /** Comparing a ratio with one half is comparing twice the position
      with the size. */
  lemma RatioAgainstHalf(mouse: int, size: int)
    requires size > 0
    ensures Ratio(mouse, size) < 0.5 <==> 2 * mouse < size
    ensures Ratio(mouse, size) > 0.5 <==> 2 * mouse > size
    ensures 0.0 <= Ratio(mouse, size) <= 1.0 <==> 0 <= mouse <= size
  {
    RatioCompared(mouse, size, 0.5);
    RatioCompared(mouse, size, 0.0);
    RatioCompared(mouse, size, 1.0);
  }

  /** `mouse/size` lies below, at or above c exactly when `mouse` lies
      below, at or above `c*size`. */
  lemma RatioCompared(mouse: int, size: int, c: real)
    requires size > 0
    ensures Ratio(mouse, size) < c <==> (mouse as real) < c * size as real
    ensures Ratio(mouse, size) > c <==> (mouse as real) > c * size as real
  {
    var r, s := Ratio(mouse, size), size as real;
    DivTimes(mouse as real, s);
    assert r * s == mouse as real;
    ScalePositive(r, c, s);
    ScalePositive(c, r, s);
  }

  /** Multiplying both sides by a positive number keeps their order. */
  lemma ScalePositive(a: real, b: real, s: real)
    requires s > 0.0
    ensures a < b <==> a * s < b * s
  {
    if a < b {
      assert (b - a) * s > 0.0;
    } else {
      assert (a - b) * s >= 0.0;
    }
  }

  lemma DivTimes(m: real, s: real)
    requires s > 0.0
    ensures (m / s) * s == m
  {
  }

  /** `GetViewNrOnMousePosition`: lower left 2, lower right 3, upper
      left 0; every other position, including any point on a midline,
      falls to 1. */
  function ViewNrAt(mouseX: int, mouseY: int, sizeX: int, sizeY: int): (v: int)
    requires sizeX > 0 && sizeY > 0
    ensures 0 <= v <= 3
    ensures 2 * mouseX == sizeX || 2 * mouseY == sizeY ==> v == 1
  {
    RatioAgainstHalf(mouseX, sizeX);
    RatioAgainstHalf(mouseY, sizeY);
    var ratioX, ratioY := Ratio(mouseX, sizeX), Ratio(mouseY, sizeY);
    if ratioX < 0.5 && ratioY < 0.5 then 2
    else if ratioX > 0.5 && ratioY < 0.5 then 3
    else if ratioX < 0.5 && ratioY > 0.5 then 0
    else 1
  }

  /** Off both midlines, a position inside the window hits the one view
      whose viewport contains it, and no other viewport contains it. */
  lemma ViewNrAtHitsContainingView(mouseX: int, mouseY: int, sizeX: int, sizeY: int)
    requires sizeX > 0 && sizeY > 0
    requires 0 <= mouseX <= sizeX && 0 <= mouseY <= sizeY
    requires 2 * mouseX != sizeX && 2 * mouseY != sizeY
    ensures var x, y := Ratio(mouseX, sizeX), Ratio(mouseY, sizeY);
      forall w :: 0 <= w <= 3 ==> (Contains(GetViewport(w), x, y) <==> w == ViewNrAt(mouseX, mouseY, sizeX, sizeY))
  {
    RatioAgainstHalf(mouseX, sizeX);
    RatioAgainstHalf(mouseY, sizeY);
  }

  /** The lookup inverts the layout: a point strictly inside view v's
      viewport is reported as view v. */
  lemma ViewNrAtInvertsGetViewport(v: int, mouseX: int, mouseY: int, sizeX: int, sizeY: int)
    requires sizeX > 0 && sizeY > 0 && 0 <= v <= 3
    requires InInterior(GetViewport(v), Ratio(mouseX, sizeX), Ratio(mouseY, sizeY))
    ensures ViewNrAt(mouseX, mouseY, sizeX, sizeY) == v
  {
    RatioAgainstHalf(mouseX, sizeX);
    RatioAgainstHalf(mouseY, sizeY);
  }

  /** The midline fallback is not always a neighbour: a point on the
      horizontal midline in the left half lies on the edge between views
      0 and 2, yet is reported as view 1, whose viewport does not contain it. */
  lemma LeftMidlineFallsOutsideView1(mouseX: int, mouseY: int, sizeX: int, sizeY: int)
    requires sizeX > 0 && sizeY > 0
    requires 0 <= mouseX && 2 * mouseX < sizeX && 2 * mouseY == sizeY
    ensures ViewNrAt(mouseX, mouseY, sizeX, sizeY) == 1
    ensures var x, y := Ratio(mouseX, sizeX), Ratio(mouseY, sizeY);
      Contains(GetViewport(0), x, y) && Contains(GetViewport(2), x, y) && !Contains(GetViewport(1), x, y)
  {
    RatioAgainstHalf(mouseX, sizeX);
    RatioAgainstHalf(mouseY, sizeY);
    assert Ratio(mouseY, sizeY) == 0.5;
  }

  // ---------------------------------------------------------------------
  // Viewport border

  /** The border's points in normalised viewport coordinates: upper
      right first, then anti-clockwise. */
  const BorderCorners: seq<(real, real)> := [(1.0, 1.0), (0.0, 1.0), (0.0, 0.0), (1.0, 0.0)]

  /** The ids of the border polyline: the four corners in order, closed
      back to the first one only for the last viewport. */
  function BorderIds(last: bool): (ids: seq<int>)
    ensures |ids| == (if last then 5 else 4) && forall k :: 0 <= k < 4 ==> ids[k] == k
    ensures ids[|ids| - 1] == ids[0] <==> last
  {
    [0, 1, 2, 3] + (if last then [0] else [])
  }

  /** `ViewportBorder`'s id list, filled by a loop as the source does. */
  method BorderPointIds(last: bool) returns (ids: seq<int>)
    ensures ids == BorderIds(last)
  {
    var a := new int[if last then 5 else 4];
    for i := 0 to 4
      invariant forall k :: 0 <= k < i ==> a[k] == k
    {
      a[i] := i;
    }
    if last {
      a[4] := 0;
    }
    ids := a[..];
  }

  /** Segment k of a polyline over the border corners joins corner
      `ids[k]` and corner `ids[k+1]`; it is a side of the viewport when the
      two corners differ in exactly one coordinate. */
  predicate IsSide(p: (real, real), q: (real, real))
  {
    (p.0 == q.0) != (p.1 == q.1)
  }

  /** The right side of the viewport, from (1, 0) to (1, 1) or back. */
  predicate IsRightSide(p: (real, real), q: (real, real))
  {
    p.0 == 1.0 && q.0 == 1.0 && p != q
  }

  /** Every segment of the border runs along a side of the viewport; only
      the border of the last viewport draws the right side, which is what
      keeps neighbouring views from drawing a doubled vertical line. */
  lemma BorderIdsTraceSides(last: bool)
    ensures var ids := BorderIds(last);
      (forall k :: 0 <= k < |ids| ==> 0 <= ids[k] < 4) &&
      (forall k :: 0 <= k < |ids| - 1 ==> IsSide(BorderCorners[ids[k]], BorderCorners[ids[k + 1]])) &&
      ((exists k :: 0 <= k < |ids| - 1 && IsRightSide(BorderCorners[ids[k]], BorderCorners[ids[k + 1]])) <==> last)
  {
    var ids := BorderIds(last);
    if last {
      assert IsRightSide(BorderCorners[ids[3]], BorderCorners[ids[4]]);
    }
  }
}
