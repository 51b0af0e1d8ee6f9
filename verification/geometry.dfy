/** Polygon vertices and the axis-aligned bounding box derived from them.
    Coordinates are exact reals: the box bounds and the area are exact here,
    where the program computes them on Python numbers (often floats). */
module Geometry {

  /** One polygon vertex `[x, y]`. */
  datatype Point = Point(x: real, y: real)

  /** A COCO box `[x_min, y_min, width, height]`. */
  datatype BBox = BBox(xMin: real, yMin: real, width: real, height: real)

  /** The x coordinates of the points, in point order. */
  function Xs(points: seq<Point>): seq<real>
  {
    seq(|points|, i requires 0 <= i < |points| => points[i].x)
  }

  /** The y coordinates of the points, in point order. */
  function Ys(points: seq<Point>): seq<real>
  {
    seq(|points|, i requires 0 <= i < |points| => points[i].y)
  }

  /** Python's `min` over a non-empty list. */
  function SeqMin(s: seq<real>): real
    requires |s| > 0
  {
    if |s| == 1 then s[0]
    else
      var rest := SeqMin(s[1..]);
      if s[0] <= rest then s[0] else rest
  }

  /** Python's `max` over a non-empty list. */
  function SeqMax(s: seq<real>): real
    requires |s| > 0
  {
    if |s| == 1 then s[0]
    else
      var rest := SeqMax(s[1..]);
      if rest <= s[0] then s[0] else rest
  }

  /** `SeqMin` is an element of the list, no larger than any other. */
  lemma {:induction false} SeqMinIsLeast(s: seq<real>)
    requires |s| > 0
    ensures exists k :: 0 <= k < |s| && s[k] == SeqMin(s)
    ensures forall k :: 0 <= k < |s| ==> SeqMin(s) <= s[k]
  {
    if |s| > 1 {
      SeqMinIsLeast(s[1..]);
      var rest := SeqMin(s[1..]);
      var k :| 0 <= k < |s[1..]| && s[1..][k] == rest;
      assert forall k :: 1 <= k < |s| ==> s[k] == s[1..][k - 1];
      if s[0] <= rest {
        assert s[0] == SeqMin(s);
      } else {
        assert s[k + 1] == SeqMin(s);
      }
    } else {
      assert s[0] == SeqMin(s);
    }
  }

  /** `SeqMax` is an element of the list, no smaller than any other. */
  lemma {:induction false} SeqMaxIsGreatest(s: seq<real>)
    requires |s| > 0
    ensures exists k :: 0 <= k < |s| && s[k] == SeqMax(s)
    ensures forall k :: 0 <= k < |s| ==> s[k] <= SeqMax(s)
  {
    if |s| > 1 {
      SeqMaxIsGreatest(s[1..]);
      var rest := SeqMax(s[1..]);
      var k :| 0 <= k < |s[1..]| && s[1..][k] == rest;
      assert forall k :: 1 <= k < |s| ==> s[k] == s[1..][k - 1];
      if rest <= s[0] {
        assert s[0] == SeqMax(s);
      } else {
        assert s[k + 1] == SeqMax(s);
      }
    } else {
      assert s[0] == SeqMax(s);
    }
  }

  /** The point lies in the closed box. */
  predicate Inside(p: Point, b: BBox)
  {
    b.xMin <= p.x <= b.xMin + b.width && b.yMin <= p.y <= b.yMin + b.height
  }

  /** The bounding box of a shape: the minima of the coordinates, and the
      spans `max - min` as width and height. */
  function BoundingBox(points: seq<Point>): BBox
    requires |points| > 0
  {
    var xs := Xs(points);
    var ys := Ys(points);
    var xMin := SeqMin(xs);
    var yMin := SeqMin(ys);
    BBox(xMin, yMin, SeqMax(xs) - xMin, SeqMax(ys) - yMin)
  }

  /** The box holds every point of the shape, so width and height are never
      negative (a box of zero area is possible). */
  lemma BoundingBoxEncloses(points: seq<Point>)
    requires |points| > 0
    ensures BoundingBox(points).width >= 0.0 && BoundingBox(points).height >= 0.0
    ensures forall i :: 0 <= i < |points| ==> Inside(points[i], BoundingBox(points))
  {
    var xs, ys := Xs(points), Ys(points);
    assert forall i :: 0 <= i < |points| ==> xs[i] == points[i].x && ys[i] == points[i].y;
    SeqMinIsLeast(xs);
    SeqMinIsLeast(ys);
    SeqMaxIsGreatest(xs);
    SeqMaxIsGreatest(ys);
  }

  /** The box is tight: each of its four sides is touched by some point, so
      `x_min` and `y_min` are the smallest coordinates and `x_min + width`
      and `y_min + height` the largest. */
  lemma BoundingBoxIsTight(points: seq<Point>)
    requires |points| > 0
    ensures exists i :: 0 <= i < |points| && points[i].x == BoundingBox(points).xMin
    ensures exists i :: 0 <= i < |points| && points[i].y == BoundingBox(points).yMin
    ensures exists i :: 0 <= i < |points| && points[i].x == BoundingBox(points).xMin + BoundingBox(points).width
    ensures exists i :: 0 <= i < |points| && points[i].y == BoundingBox(points).yMin + BoundingBox(points).height
  {
    var xs, ys := Xs(points), Ys(points);
    assert forall i :: 0 <= i < |points| ==> xs[i] == points[i].x && ys[i] == points[i].y;
    SeqMinIsLeast(xs);
    SeqMinIsLeast(ys);
    SeqMaxIsGreatest(xs);
    SeqMaxIsGreatest(ys);
  }

  /** The area recorded with a box: width times height. */
  function Area(b: BBox): real
  {
    b.width * b.height
  }
}
