/** Crossing of two segments in the plane. */
module Segments {

  datatype Point = Point(x: real, y: real)

  /** Twice the signed area of the triangle. */
  function Cross(a: Point, b: Point, c: Point): real {
    (c.y - a.y) * (b.x - a.x) - (b.y - a.y) * (c.x - a.x)
  }

  predicate Clockwise(a: Point, b: Point, c: Point) {
    (c.y - a.y) * (b.x - a.x) > (b.y - a.y) * (c.x - a.x)
  }

  predicate SegmentOverlap(a: Point, b: Point, c: Point, d: Point) {
    Clockwise(a, c, d) != Clockwise(b, c, d) && Clockwise(a, b, c) != Clockwise(a, b, d)
  }

  function Slope(a: Point, b: Point): real
    requires a.x != b.x
  {
    (b.y - a.y) / (b.x - a.x)
  }

  function GetIntersection(a: Point, b: Point, c: Point, d: Point): Point
    requires a.x != b.x && c.x != d.x && Slope(a, b) != Slope(c, d)
  {
    var s1, s2 := Slope(a, b), Slope(c, d);
    var c1, c2 := b.y - s1 * b.x, d.y - s2 * d.x;
    var x := (c2 - c1) / (s2 - s1);
    Point(x, s1 * x + c1)
  }

  // ----- points of a segment -----

  function Along(a: Point, b: Point, t: real): Point {
    Point(a.x + t * (b.x - a.x), a.y + t * (b.y - a.y))
  }

  ghost predicate OnSegment(p: Point, a: Point, b: Point) {
    exists t: real :: 0.0 <= t <= 1.0 && p == Along(a, b, t)
  }

  ghost predicate Share(a: Point, b: Point, c: Point, d: Point) {
    exists p :: OnSegment(p, a, b) && OnSegment(p, c, d)
  }

  lemma EndsOn(s: Point, e: Point)
    ensures OnSegment(s, s, e) && OnSegment(e, s, e)
    ensures Along(s, e, 0.0) == s && Along(s, e, 1.0) == e
  {
    assert Along(s, e, 0.0) == s && Along(s, e, 1.0) == e;
  }

  /** The directions are not parallel. */
  function Turn(a: Point, b: Point, c: Point, d: Point): real {
    (b.x - a.x) * (d.y - c.y) - (b.y - a.y) * (d.x - c.x)
  }

  lemma CrossTurned(a: Point, b: Point, c: Point)
    ensures Cross(a, b, c) == Cross(b, c, a)
  {
  }

  lemma CrossFlipped(a: Point, b: Point, c: Point)
    ensures Cross(b, a, c) == -Cross(a, b, c)
  {
    assert (c.y - b.y) * (a.x - b.x) == (c.y - a.y) * (a.x - b.x) + (a.y - b.y) * (a.x - b.x);
  }

  lemma CrossLast(a: Point, b: Point, c: Point, d: Point, t: real)
    ensures Cross(a, b, Along(c, d, t)) == (1.0 - t) * Cross(a, b, c) + t * Cross(a, b, d)
  {
    Spread(t, (b.x - a.x) * (c.y - a.y), (b.y - a.y) * (c.x - a.x),
           (b.x - a.x) * (d.y - a.y), (b.y - a.y) * (d.x - a.x));
  }

  lemma Spread(t: real, p: real, q: real, r: real, s: real)
    ensures (1.0 - t) * p + t * r - ((1.0 - t) * q + t * s) == (1.0 - t) * (p - q) + t * (r - s)
  {
  }

  lemma CrossAlong(a: Point, b: Point, c: Point, d: Point, t: real)
    ensures Cross(Along(a, b, t), c, d) == (1.0 - t) * Cross(a, c, d) + t * Cross(b, c, d)
  {
    hide Cross;
    CrossTurned(Along(a, b, t), c, d);
    CrossTurned(a, c, d);
    CrossTurned(b, c, d);
    CrossLast(c, d, a, b, t);
  }

  lemma CrossZero(a: Point, b: Point, t: real)
    ensures Cross(a, b, Along(a, b, t)) == 0.0 == Cross(Along(a, b, t), a, b)
  {
    CrossTurned(Along(a, b, t), a, b);
    var u, v := b.x - a.x, b.y - a.y;
    assert (t * v) * u == v * (t * u);
  }

  /** Where the lines cross, from either segment. */
  lemma CrossingPoint(a: Point, b: Point, c: Point, d: Point, t: real, s: real)
    requires Turn(a, b, c, d) != 0.0
    requires t == Cross(a, c, d) / Turn(a, b, c, d) && s == -Cross(a, b, c) / Turn(a, b, c, d)
    ensures Along(a, b, t) == Along(c, d, s)
  {
    hide Turn, Cross;
    var k := Turn(a, b, c, d);
    Quotient(Cross(a, c, d), k, t);
    Quotient(-Cross(a, b, c), k, s);
    Closed(a, b, c, d);
    Coordinate(a.x, b.x - a.x, c.x, d.x - c.x, t, s, k);
    Coordinate(a.y, b.y - a.y, c.y, d.y - c.y, t, s, k);
  }

  lemma Closed(a: Point, b: Point, c: Point, d: Point)
    ensures (a.x - c.x) * Turn(a, b, c, d) + Cross(a, c, d) * (b.x - a.x) + Cross(a, b, c) * (d.x - c.x) == 0.0
    ensures (a.y - c.y) * Turn(a, b, c, d) + Cross(a, c, d) * (b.y - a.y) + Cross(a, b, c) * (d.y - c.y) == 0.0
  {
    CrossTurned(a, c, d);
  }

  lemma Coordinate(p: real, u: real, q: real, v: real, t: real, s: real, k: real)
    requires k != 0.0 && (p - q) * k + (t * k) * u - (s * k) * v == 0.0
    ensures p + t * u == q + s * v
  {
    var e := p + t * u - (q + s * v);
    assert e * k == (p - q) * k + (t * k) * u - (s * k) * v;
    Quotient(0.0, k, e);
  }

  lemma Quotient(u: real, v: real, q: real)
    requires v != 0.0
    ensures q * v == u <==> u / v == q
  {
  }

  lemma Bounded(r: real, u: real, w: real)
    requires r * w == u && (if w > 0.0 then 0.0 <= u <= w else w < 0.0 && w <= u <= 0.0)
    ensures 0.0 <= r <= 1.0
  {
    if w > 0.0 {
      Product(r, w);
      Product(1.0 - r, w);
      assert (1.0 - r) * w == w - u;
    } else {
      Product(r, -w);
      Product(1.0 - r, -w);
      assert (1.0 - r) * -w == u - w;
      assert r * -w == -u;
    }
  }

  lemma Product(x: real, w: real)
    requires w > 0.0
    ensures x < 0.0 ==> x * w < 0.0
    ensures x > 0.0 ==> x * w > 0.0
  {
  }

  /** Overlapping segments are not parallel and share a point: the crossing of their lines. */
  lemma OverlapShares(a: Point, b: Point, c: Point, d: Point)
    requires SegmentOverlap(a, b, c, d)
    ensures Turn(a, b, c, d) != 0.0
    ensures var t := Cross(a, c, d) / Turn(a, b, c, d);
            OnSegment(Along(a, b, t), a, b) && OnSegment(Along(a, b, t), c, d)
  {
    hide Along;
    var t := Cross(a, c, d) / Turn(a, b, c, d);
    var u, v := Cross(a, b, c), Cross(a, b, d);
    var s := u / (u - v);
    Quotient(u, u - v, s);
    Quotient(-u, v - u, s);
    CrossingPoint(a, b, c, d, t, s);
  }

  lemma SharedSigns(a: Point, b: Point, c: Point, d: Point)
    requires Share(a, b, c, d)
    ensures !(Cross(a, c, d) > 0.0 && Cross(b, c, d) > 0.0) && !(Cross(a, c, d) < 0.0 && Cross(b, c, d) < 0.0)
    ensures !(Cross(a, b, c) > 0.0 && Cross(a, b, d) > 0.0) && !(Cross(a, b, c) < 0.0 && Cross(a, b, d) < 0.0)
  {
    hide Along, Cross;
    var p :| OnSegment(p, a, b) && OnSegment(p, c, d);
    var t: real :| 0.0 <= t <= 1.0 && p == Along(a, b, t);
    var s: real :| 0.0 <= s <= 1.0 && p == Along(c, d, s);
    CrossAlong(a, b, c, d, t);
    CrossZero(c, d, s);
    CrossLast(a, b, c, d, s);
    CrossZero(a, b, t);
    NotBoth(t, Cross(a, c, d), Cross(b, c, d));
    NotBoth(s, Cross(a, b, c), Cross(a, b, d));
  }

  /** The test is exact up to touching: it holds when the segments share a point and, on
      each line, an endpoint of the other segment lies strictly to the left. */
  lemma OverlapExactly(a: Point, b: Point, c: Point, d: Point)
    ensures SegmentOverlap(a, b, c, d) <==>
            && Share(a, b, c, d)
            && (Clockwise(a, c, d) || Clockwise(b, c, d))
            && (Clockwise(a, b, c) || Clockwise(a, b, d))
  {
    hide Cross, OnSegment, Along, Turn;
    ClockwiseIs(a, c, d);
    ClockwiseIs(b, c, d);
    ClockwiseIs(a, b, c);
    ClockwiseIs(a, b, d);
    hide Clockwise;
    if SegmentOverlap(a, b, c, d) {
      OverlapShares(a, b, c, d);
    }
    if Share(a, b, c, d) {
      SharedSigns(a, b, c, d);
    }
  }

  lemma ClockwiseIs(a: Point, b: Point, c: Point)
    ensures Clockwise(a, b, c) <==> Cross(a, b, c) > 0.0
  {
  }

  lemma NotBoth(t: real, u: real, v: real)
    requires 0.0 <= t <= 1.0 && (1.0 - t) * u + t * v == 0.0
    ensures !(u > 0.0 && v > 0.0) && !(u < 0.0 && v < 0.0)
  {
    if t == 0.0 {
      assert (1.0 - t) * u == u;
    } else if t == 1.0 {
      assert t * v == v;
    } else if u > 0.0 && v > 0.0 {
      Product(t, v);
      Product(1.0 - t, u);
    } else if u < 0.0 && v < 0.0 {
      Product(t, -v);
      Product(1.0 - t, -u);
    }
  }

  /** No endpoint of one segment on the line of the other. */
  predicate General(a: Point, b: Point, c: Point, d: Point) {
    Cross(a, c, d) != 0.0 && Cross(b, c, d) != 0.0 && Cross(a, b, c) != 0.0 && Cross(a, b, d) != 0.0
  }

  /** In general position the test says exactly whether the segments share a point. */
  lemma OverlapIffShared(a: Point, b: Point, c: Point, d: Point)
    requires General(a, b, c, d)
    ensures SegmentOverlap(a, b, c, d) <==> Share(a, b, c, d)
  {
    hide Cross, OnSegment, Along, Turn;
    OverlapExactly(a, b, c, d);
    if Share(a, b, c, d) {
      SharedSigns(a, b, c, d);
      ClockwiseIs(a, c, d);
      ClockwiseIs(b, c, d);
      ClockwiseIs(a, b, c);
      ClockwiseIs(a, b, d);
    }
  }

  /** Exchanging the segments changes nothing. */
  lemma OverlapSymmetric(a: Point, b: Point, c: Point, d: Point)
    ensures SegmentOverlap(a, b, c, d) <==> SegmentOverlap(c, d, a, b)
  {
    CrossTurned(a, c, d);
    CrossTurned(b, c, d);
    CrossTurned(c, a, b);
    CrossTurned(d, a, b);
    ClockwiseIs(a, c, d);
    ClockwiseIs(b, c, d);
    ClockwiseIs(c, d, a);
    ClockwiseIs(c, d, b);
    ClockwiseIs(c, a, b);
    ClockwiseIs(d, a, b);
    ClockwiseIs(a, b, c);
    ClockwiseIs(a, b, d);
    hide Cross, Clockwise;
  }

  lemma ShareReversed(a: Point, b: Point, c: Point, d: Point)
    requires Share(a, b, c, d)
    ensures Share(b, a, c, d)
  {
    var p :| OnSegment(p, a, b) && OnSegment(p, c, d);
    var t: real :| 0.0 <= t <= 1.0 && p == Along(a, b, t);
    assert p == Along(b, a, 1.0 - t);
  }

  /** Reversing a segment changes nothing in general position. */
  lemma OverlapReversed(a: Point, b: Point, c: Point, d: Point)
    requires General(a, b, c, d)
    ensures SegmentOverlap(a, b, c, d) <==> SegmentOverlap(b, a, c, d)
  {
    CrossFlipped(a, b, c);
    CrossFlipped(a, b, d);
    hide Cross, SegmentOverlap, Share;
    assert General(b, a, c, d);
    OverlapIffShared(a, b, c, d);
    OverlapIffShared(b, a, c, d);
    if Share(a, b, c, d) {
      ShareReversed(a, b, c, d);
    }
    if Share(b, a, c, d) {
      ShareReversed(b, a, c, d);
    }
  }

  /** Touching segments may pass or fail, depending only on their direction. */
  lemma TouchingDependsOnDirection()
    ensures var a, b, c, d := Point(0.0, 0.0), Point(2.0, 0.0), Point(1.0, 0.0), Point(1.0, 1.0);
            SegmentOverlap(a, b, c, d) && Share(b, a, c, d) && !SegmentOverlap(b, a, c, d)
  {
    var a, b, c, d := Point(0.0, 0.0), Point(2.0, 0.0), Point(1.0, 0.0), Point(1.0, 1.0);
    assert Along(a, b, 0.5) == c == Along(c, d, 0.0);
    assert OnSegment(c, a, b) && OnSegment(c, c, d);
    ShareReversed(a, b, c, d);
  }

  // ----- the crossing point -----

  lemma SlopesDiffer(a: Point, b: Point, c: Point, d: Point)
    requires a.x != b.x && c.x != d.x
    ensures Slope(a, b) != Slope(c, d) <==> Turn(a, b, c, d) != 0.0
  {
    var u, v := b.x - a.x, d.x - c.x;
    assert Slope(a, b) * u == b.y - a.y && Slope(c, d) * v == d.y - c.y;
    assert u * (Slope(c, d) * v) == Slope(c, d) * (u * v) && (Slope(a, b) * u) * v == Slope(a, b) * (u * v);
    assert Turn(a, b, c, d) == (Slope(c, d) - Slope(a, b)) * (u * v);
    assert u * v != 0.0;
  }

  /** Where the line of a segment meets the vertical axis. */
  function Intercept(a: Point, b: Point): real
    requires a.x != b.x
  {
    b.y - Slope(a, b) * b.x
  }

  predicate OnLine(p: Point, a: Point, b: Point)
    requires a.x != b.x
  {
    p.y == Slope(a, b) * p.x + Intercept(a, b)
  }

  lemma AlongOnLine(a: Point, b: Point, t: real)
    requires a.x != b.x
    ensures OnLine(Along(a, b, t), a, b)
  {
    var m := Slope(a, b);
    assert m * (b.x - a.x) == b.y - a.y;
    assert Along(a, b, t).y == a.y + t * (m * (b.x - a.x));
  }

  lemma Solve(x: real, s1: real, s2: real, c1: real, c2: real)
    requires s1 != s2 && s1 * x + c1 == s2 * x + c2
    ensures (c2 - c1) / (s2 - s1) == -x
    ensures x == 0.0 <==> c1 == c2
  {
    assert x * (s2 - s1) == c1 - c2;
    Quotient(c2 - c1, s2 - s1, -x);
    Quotient(c1 - c2, s2 - s1, x);
  }

  /** The computed point is on the first line, but mirrored in the vertical axis: its
      abscissa has the sign of the crossing point's reversed. */
  lemma IntersectionMirrored(a: Point, b: Point, c: Point, d: Point, q: Point)
    requires a.x != b.x && c.x != d.x && Slope(a, b) != Slope(c, d)
    requires OnLine(q, a, b) && OnLine(q, c, d)
    ensures var p := GetIntersection(a, b, c, d);
            && p.x == -q.x && OnLine(p, a, b)
            && (p == q <==> Intercept(a, b) == Intercept(c, d))
            && (q.x == 0.0 <==> Intercept(a, b) == Intercept(c, d))
  {
    hide Slope;
    Solve(q.x, Slope(a, b), Slope(c, d), Intercept(a, b), Intercept(c, d));
  }

  lemma SamePoint(a: Point, b: Point, q: Point, r: Point)
    requires a.x != b.x && OnLine(q, a, b) && OnLine(r, a, b) && q.x == r.x
    ensures q == r
  {
  }

  lemma SharedOnLines(a: Point, b: Point, c: Point, d: Point, q: Point)
    requires a.x != b.x && c.x != d.x && OnSegment(q, a, b) && OnSegment(q, c, d)
    ensures OnLine(q, a, b) && OnLine(q, c, d)
  {
    hide Along, OnLine;
    var t: real :| 0.0 <= t <= 1.0 && q == Along(a, b, t);
    var s: real :| 0.0 <= s <= 1.0 && q == Along(c, d, s);
    AlongOnLine(a, b, t);
    AlongOnLine(c, d, s);
  }

  /** The computed point lies on both segments exactly when they share a point and their
      lines meet the vertical axis at the same height. */
  lemma IntersectionExactly(a: Point, b: Point, c: Point, d: Point)
    requires a.x != b.x && c.x != d.x && Slope(a, b) != Slope(c, d)
    ensures var p := GetIntersection(a, b, c, d);
            OnSegment(p, a, b) && OnSegment(p, c, d) <==> Share(a, b, c, d) && Intercept(a, b) == Intercept(c, d)
  {
    hide GetIntersection, OnSegment, OnLine, Slope, Intercept;
    var p := GetIntersection(a, b, c, d);
    if Share(a, b, c, d) {
      var q :| OnSegment(q, a, b) && OnSegment(q, c, d);
      SharedOnLines(a, b, c, d, q);
      IntersectionMirrored(a, b, c, d, q);
    }
    if OnSegment(p, a, b) && OnSegment(p, c, d) {
      SharedOnLines(a, b, c, d, p);
      IntersectionMirrored(a, b, c, d, p);
    }
  }

  /** For overlapping segments, neither vertical: the slopes differ, there is one common
      point, and the computed point is its mirror image in abscissa. */
  lemma IntersectionOfOverlap(a: Point, b: Point, c: Point, d: Point) returns (q: Point)
    requires SegmentOverlap(a, b, c, d) && a.x != b.x && c.x != d.x
    ensures Slope(a, b) != Slope(c, d) && OnSegment(q, a, b) && OnSegment(q, c, d)
    ensures forall r :: OnSegment(r, a, b) && OnSegment(r, c, d) ==> r == q
    ensures var p := GetIntersection(a, b, c, d);
            && p.x == -q.x
            && (p == q <==> Intercept(a, b) == Intercept(c, d))
  {
    hide OnSegment, OnLine, Slope, Intercept, SegmentOverlap, Cross, Along, GetIntersection;
    OverlapShares(a, b, c, d);
    SlopesDiffer(a, b, c, d);
    q := Along(a, b, Cross(a, c, d) / Turn(a, b, c, d));
    SharedOnLines(a, b, c, d, q);
    IntersectionMirrored(a, b, c, d, q);
    forall r | OnSegment(r, a, b) && OnSegment(r, c, d)
      ensures r == q
    {
      SharedOnLines(a, b, c, d, r);
      IntersectionMirrored(a, b, c, d, r);
      SamePoint(a, b, q, r);
    }
  }

  /** The diagonals of a square cross at (1, 1); the computed point is (-1, -1). */
  lemma DiagonalsMissed()
    ensures var a, b, c, d := Point(0.0, 0.0), Point(2.0, 2.0), Point(0.0, 2.0), Point(2.0, 0.0);
            && SegmentOverlap(a, b, c, d)
            && OnSegment(Point(1.0, 1.0), a, b) && OnSegment(Point(1.0, 1.0), c, d)
            && Slope(a, b) != Slope(c, d)
            && GetIntersection(a, b, c, d) == Point(-1.0, -1.0)
            && !OnSegment(GetIntersection(a, b, c, d), a, b)
  {
    var a, b, c, d := Point(0.0, 0.0), Point(2.0, 2.0), Point(0.0, 2.0), Point(2.0, 0.0);
    assert Along(a, b, 0.5) == Point(1.0, 1.0) == Along(c, d, 0.5);
    assert Slope(a, b) == 1.0 && Slope(c, d) == -1.0;
  }
}
