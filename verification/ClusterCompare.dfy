/** When two clusters are compatible: the angle and distance tests. */
module ClusterCompare {
  import opened Segments
  import opened ClusterMerge

  function Pow2(x: real): real { x * x }

  function Dist2(p: Point, q: Point): real { Pow2(p.x - q.x) + Pow2(p.y - q.y) }

  function Dot(p: Point, s: Point, e: Point): real {
    (p.x - s.x) * (e.x - s.x) + (p.y - s.y) * (e.y - s.y)
  }

  /** From point `p` to the segment from `s` to `e`; shorter segments count as points. */
  function ShortestDistanceSquared(p: Point, s: Point, e: Point, minUnit: real): real
    requires minUnit > 0.0
  {
    var length2 := Dist2(e, s);
    if length2 < minUnit then Dist2(p, s)
    else
      var t := Dot(p, s, e) / length2;
      if t < 0.0 then Dist2(p, s)
      else if t > 1.0 then Dist2(p, e)
      else Dist2(p, Along(s, e, t))
  }

  datatype Cuts = Cuts(wire: real, time: real, minUnit: real, maxAngle: real, maxDist2: real)

  function Abs(x: real): real { if x < 0.0 then -x else x }

  predicate Angle2DCompatibility(a: Cluster, b: Cluster, cuts: Cuts) {
    || Abs(a.angle - b.angle) < cuts.maxAngle
    || Abs(a.angle - b.angle - 180.0) < cuts.maxAngle
    || Abs(a.angle - b.angle + 180.0) < cuts.maxAngle
  }

  function Start(a: Cluster, cuts: Cuts): Point { Point(a.startWire * cuts.wire, a.startTime * cuts.time) }

  function End(a: Cluster, cuts: Cuts): Point { Point(a.endWire * cuts.wire, a.endTime * cuts.time) }

  predicate ShortestDistanceCompatibility(a: Cluster, b: Cluster, cuts: Cuts)
    requires cuts.minUnit > 0.0
  {
    var s1, e1, s2, e2 := Start(a, cuts), End(a, cuts), Start(b, cuts), End(b, cuts);
    var d1 := ShortestDistanceSquared(s1, s2, e2, cuts.minUnit);
    var d2 := ShortestDistanceSquared(e1, s2, e2, cuts.minUnit);
    var m2 := if d2 < d1 then d2 else d1;
    var d3 := ShortestDistanceSquared(s2, s1, e1, cuts.minUnit);
    var m3 := if d3 < m2 then d3 else m2;
    var d4 := ShortestDistanceSquared(e2, s1, e1, cuts.minUnit);
    var m4 := if d4 < m3 then d4 else m3;
    m4 < cuts.maxDist2
  }

  predicate CompareClusters(a: Cluster, b: Cluster, cuts: Cuts)
    requires cuts.minUnit > 0.0
  {
    Angle2DCompatibility(a, b, cuts) && ShortestDistanceCompatibility(a, b, cuts)
  }

  // ----- distance to a segment -----

  /** `r` is the least squared distance from `p` to the segment. */
  ghost predicate Nearest(r: real, p: Point, s: Point, e: Point) {
    && (exists q :: OnSegment(q, s, e) && r == Dist2(p, q))
    && (forall q :: OnSegment(q, s, e) ==> r <= Dist2(p, q))
  }

  lemma Square(x: real)
    ensures Pow2(x) >= 0.0
  {
  }

  /** The squared distance along the segment is a parabola. */
  lemma Parabola(p: Point, s: Point, e: Point, t: real)
    ensures Dist2(p, Along(s, e, t)) == Dist2(p, s) - 2.0 * (t * Dot(p, s, e)) + t * t * Dist2(e, s)
  {
    hide Pow2, Dot, Along;
    var wx, wy, ux, uy := p.x - s.x, p.y - s.y, e.x - s.x, e.y - s.y;
    AlongParts(p, s, e, t, wx, wy, ux, uy);
    DotParts(p, s, e);
    ParabolaParts(wx, wy, ux, uy, t, Dot(p, s, e), Dist2(e, s));
  }

  lemma DotParts(p: Point, s: Point, e: Point)
    ensures Dot(p, s, e) == (p.x - s.x) * (e.x - s.x) + (p.y - s.y) * (e.y - s.y)
  {
  }

  lemma AlongParts(p: Point, s: Point, e: Point, t: real, wx: real, wy: real, ux: real, uy: real)
    requires wx == p.x - s.x && wy == p.y - s.y && ux == e.x - s.x && uy == e.y - s.y
    ensures Dist2(p, Along(s, e, t)) == Pow2(wx - t * ux) + Pow2(wy - t * uy)
  {
    hide Pow2;
    assert p.x - Along(s, e, t).x == wx - t * ux;
    assert p.y - Along(s, e, t).y == wy - t * uy;
  }

  lemma ParabolaParts(wx: real, wy: real, ux: real, uy: real, t: real, dot: real, len: real)
    requires dot == wx * ux + wy * uy && len == Pow2(ux) + Pow2(uy)
    ensures Pow2(wx - t * ux) + Pow2(wy - t * uy) == Pow2(wx) + Pow2(wy) - 2.0 * (t * dot) + t * t * len
  {
    hide Pow2;
    Part(wx, ux, t);
    Part(wy, uy, t);
  }

  lemma Part(w: real, u: real, t: real)
    ensures Pow2(w - t * u) == Pow2(w) - 2.0 * (t * (w * u)) + t * t * Pow2(u)
  {
    assert w * (t * u) == t * (w * u);
    assert (t * u) * (t * u) == t * t * (u * u);
  }

  /** Where a parabola is least on `[0, 1]`: at 0, at 1, or where it turns. */
  lemma LeastAtStart(dot: real, len: real, t: real)
    requires len >= 0.0 && 0.0 <= t <= 1.0 && dot <= 0.0
    ensures -2.0 * (t * dot) + t * t * len >= 0.0
  {
    AtLeastZero(t, -dot);
    AtLeastZero(t, t);
    AtLeastZero(t * t, len);
    assert t * -dot == -(t * dot);
  }

  lemma AtLeastZero(x: real, y: real)
    requires x >= 0.0 && y >= 0.0
    ensures x * y >= 0.0
  {
  }

  lemma LeastAtEnd(dot: real, len: real, t: real)
    requires len > 0.0 && 0.0 <= t <= 1.0 && dot >= len
    ensures -2.0 * (t * dot) + t * t * len >= -2.0 * dot + len
  {
    LeastAtStart(len - dot, len, 1.0 - t);
  }

  lemma LeastInside(len: real, t: real, best: real)
    requires len > 0.0
    ensures -2.0 * (t * (best * len)) + t * t * len >= -2.0 * (best * (best * len)) + best * best * len
  {
    Square(t - best);
    AtLeastZero(Pow2(t - best), len);
    assert t * (best * len) == t * best * len && best * (best * len) == best * best * len;
  }

  /** The value returned for a segment long enough. */
  lemma ShortestIsNearest(p: Point, s: Point, e: Point, minUnit: real)
    requires minUnit > 0.0 && Dist2(e, s) >= minUnit
    ensures Nearest(ShortestDistanceSquared(p, s, e, minUnit), p, s, e)
  {
    hide Dist2, Dot, Along, ShortestDistanceSquared;
    var len, dot := Dist2(e, s), Dot(p, s, e);
    var t := Clamped(dot / len);
    ShortestIsClamped(p, s, e, minUnit);
    assert OnSegment(Along(s, e, t), s, e);
    forall q | OnSegment(q, s, e)
      ensures Dist2(p, Along(s, e, t)) <= Dist2(p, q)
    {
      var k: real :| 0.0 <= k <= 1.0 && q == Along(s, e, k);
      Parabola(p, s, e, k);
      Parabola(p, s, e, t);
      Quotient(dot, len, dot / len);
      Lowest(dot, len, dot / len, t, k);
    }
  }

  function Clamped(t: real): real { if t < 0.0 then 0.0 else if t > 1.0 then 1.0 else t }

  lemma ShortestIsClamped(p: Point, s: Point, e: Point, minUnit: real)
    requires minUnit > 0.0 && Dist2(e, s) >= minUnit
    ensures ShortestDistanceSquared(p, s, e, minUnit) == Dist2(p, Along(s, e, Clamped(Dot(p, s, e) / Dist2(e, s))))
  {
    assert Along(s, e, 0.0) == s && Along(s, e, 1.0) == e;
    hide Dist2, Dot;
  }

  lemma Lowest(dot: real, len: real, best: real, t: real, k: real)
    requires len > 0.0 && best * len == dot && 0.0 <= k <= 1.0
    requires t == Clamped(best)
    ensures -2.0 * (t * dot) + t * t * len <= -2.0 * (k * dot) + k * k * len
  {
    Sides(dot, len, best);
    if best < 0.0 {
      LeastAtStart(dot, len, k);
    } else if best > 1.0 {
      LeastAtEnd(dot, len, k);
    } else {
      LeastInside(len, k, best);
    }
  }

  lemma Sides(dot: real, len: real, best: real)
    requires len > 0.0 && best * len == dot
    ensures best < 0.0 ==> dot <= 0.0
    ensures best > 1.0 ==> dot >= len
  {
    if best < 0.0 {
      Product(best, len);
    } else if best > 1.0 {
      Product(best - 1.0, len);
      assert (best - 1.0) * len == dot - len;
    }
  }

  /** A segment below the limit is taken for its start point. */
  lemma ShortSegment(p: Point, s: Point, e: Point, minUnit: real)
    requires minUnit > 0.0 && Dist2(e, s) < minUnit
    ensures Nearest(ShortestDistanceSquared(p, s, e, minUnit), p, s, e) <==> Dot(p, s, e) <= 0.0
  {
    assert Along(s, e, 0.0) == s;
    assert OnSegment(s, s, e);
    NotNegative(e, s);
    hide Dist2, Dot;
    if Dot(p, s, e) <= 0.0 {
      Ahead(p, s, e);
    } else {
      var q := Closer(p, s, e);
    }
  }

  lemma NotNegative(p: Point, q: Point)
    ensures Dist2(p, q) >= 0.0
  {
    Square(p.x - q.x);
    Square(p.y - q.y);
  }

  lemma Ahead(p: Point, s: Point, e: Point)
    requires Dot(p, s, e) <= 0.0
    ensures forall q :: OnSegment(q, s, e) ==> Dist2(p, s) <= Dist2(p, q)
  {
    hide Dist2, Dot, Along;
    NotNegative(e, s);
    forall q | OnSegment(q, s, e)
      ensures Dist2(p, s) <= Dist2(p, q)
    {
      var k: real :| 0.0 <= k <= 1.0 && q == Along(s, e, k);
      Parabola(p, s, e, k);
      LeastAtStart(Dot(p, s, e), Dist2(e, s), k);
    }
  }

  lemma Closer(p: Point, s: Point, e: Point) returns (q: Point)
    requires Dot(p, s, e) > 0.0
    ensures OnSegment(q, s, e) && Dist2(p, q) < Dist2(p, s)
  {
    hide Dist2, Dot, Along;
    NotNegative(e, s);
    var t := Downhill(Dot(p, s, e), Dist2(e, s));
    q := Along(s, e, t);
    Parabola(p, s, e, t);
  }

  lemma Downhill(dot: real, len: real) returns (t: real)
    requires dot > 0.0 && len >= 0.0
    ensures 0.0 <= t <= 1.0 && -2.0 * (t * dot) + t * t * len < 0.0
  {
    if len <= dot {
      t := 1.0;
    } else {
      t := dot / len;
      Quotient(dot, len, t);
      Bounded(t, dot, len);
      Quotient(dot, len, 0.0);
      Product(t, dot);
      assert t * t * len == t * (t * len);
    }
  }

  /** The function returns the least squared distance to the segment exactly when the
      segment is long enough or the point does not lie ahead of its start. */
  lemma ShortestExactly(p: Point, s: Point, e: Point, minUnit: real)
    requires minUnit > 0.0
    ensures Nearest(ShortestDistanceSquared(p, s, e, minUnit), p, s, e) <==>
            Dist2(e, s) >= minUnit || Dot(p, s, e) <= 0.0
  {
    hide Dist2, Dot, Nearest, ShortestDistanceSquared;
    if Dist2(e, s) >= minUnit {
      ShortestIsNearest(p, s, e, minUnit);
    } else {
      ShortSegment(p, s, e, minUnit);
    }
  }

  /** A segment of length one, below a limit of two: its end point lies on it, but is told
      to be at distance one. */
  lemma ShortSegmentMissed()
    ensures var s, e := Point(0.0, 0.0), Point(1.0, 0.0);
            && ShortestDistanceSquared(e, s, e, 4.0) == 1.0 && OnSegment(e, s, e) && Dist2(e, e) == 0.0
            && !Nearest(ShortestDistanceSquared(e, s, e, 4.0), e, s, e)
  {
    hide Dist2, Nearest, OnSegment, ShortestDistanceSquared;
    EndMissed(Point(0.0, 0.0), Point(1.0, 0.0));
  }

  lemma EndMissed(s: Point, e: Point)
    requires e.x == s.x + 1.0 && e.y == s.y
    ensures ShortestDistanceSquared(e, s, e, 4.0) == 1.0 && OnSegment(e, s, e) && Dist2(e, e) == 0.0
    ensures !Nearest(ShortestDistanceSquared(e, s, e, 4.0), e, s, e)
  {
    hide Pow2, Dot, Nearest, OnSegment, Along, ShortestDistanceSquared;
    SmallSquares();
    DotOf(e, s, e, 1.0, 0.0, 1.0, 0.0);
    EndsOn(s, e);
    ShortValue(e, s, e, 4.0);
    ShortestExactly(e, s, e, 4.0);
  }

  lemma ShortValue(p: Point, s: Point, e: Point, minUnit: real)
    requires minUnit > 0.0 && Dist2(e, s) < minUnit
    ensures ShortestDistanceSquared(p, s, e, minUnit) == Dist2(p, s)
  {
    hide Dist2;
  }

  lemma SmallSquares()
    ensures Pow2(1.0) == 1.0 && Pow2(0.0) == 0.0
  {
  }

  lemma DotOf(p: Point, s: Point, e: Point, wx: real, wy: real, ux: real, uy: real)
    requires wx == p.x - s.x && wy == p.y - s.y && ux == e.x - s.x && uy == e.y - s.y
    ensures Dot(p, s, e) == wx * ux + wy * uy
  {
  }

  // ----- compatibility -----

  /** Where a wire and a time lie, in centimetres. */
  function Place(wire: real, time: real, cuts: Cuts): Point { Point(wire * cuts.wire, time * cuts.time) }

  /** Long enough to be taken for a segment. */
  predicate Long(a: Cluster, cuts: Cuts) {
    var dx, dy := (a.endWire - a.startWire) * cuts.wire, (a.endTime - a.startTime) * cuts.time;
    dx * dx + dy * dy >= cuts.minUnit
  }

  /** Where the segment ends that stands for the cluster: a short one is its start point. */
  function Tip(a: Cluster, cuts: Cuts): Point {
    if Long(a, cuts) then Place(a.endWire, a.endTime, cuts) else Place(a.startWire, a.startTime, cuts)
  }

  /** A point of what stands for the cluster. */
  ghost predicate OnBody(q: Point, a: Cluster, cuts: Cuts) {
    OnSegment(q, Place(a.startWire, a.startTime, cuts), Tip(a, cuts))
  }

  predicate IsEnd(p: Point, a: Cluster, cuts: Cuts) {
    p == Place(a.startWire, a.startTime, cuts) || p == Place(a.endWire, a.endTime, cuts)
  }

  lemma LongIs(a: Cluster, cuts: Cuts)
    ensures Place(a.startWire, a.startTime, cuts) == Start(a, cuts) && Place(a.endWire, a.endTime, cuts) == End(a, cuts)
    ensures Long(a, cuts) <==> Dist2(End(a, cuts), Start(a, cuts)) >= cuts.minUnit
  {
    assert a.endWire * cuts.wire - a.startWire * cuts.wire == (a.endWire - a.startWire) * cuts.wire;
    assert a.endTime * cuts.time - a.startTime * cuts.time == (a.endTime - a.startTime) * cuts.time;
  }

  /** An end point of one cluster, and a point of the other. */
  ghost predicate Facing(a: Cluster, b: Cluster, cuts: Cuts, p: Point, q: Point) {
    (IsEnd(p, a, cuts) && OnBody(q, b, cuts)) || (IsEnd(p, b, cuts) && OnBody(q, a, cuts))
  }

  lemma OnPoint(q: Point, s: Point)
    ensures OnSegment(q, s, s) <==> q == s
  {
    assert Along(s, s, 0.0) == s;
  }

  /** The distance to a cluster is that to what stands for it. */
  lemma NearestBody(p: Point, b: Cluster, cuts: Cuts)
    requires cuts.minUnit > 0.0
    ensures var d := ShortestDistanceSquared(p, Start(b, cuts), End(b, cuts), cuts.minUnit);
            Nearest(d, p, Start(b, cuts), Tip(b, cuts))
  {
    LongIs(b, cuts);
    if Long(b, cuts) {
      ShortestIsNearest(p, Start(b, cuts), End(b, cuts), cuts.minUnit);
    } else {
      NearestPoint(p, Start(b, cuts));
      hide Dist2, Nearest;
    }
  }

  lemma NearestPoint(p: Point, s: Point)
    ensures Nearest(Dist2(p, s), p, s, s)
  {
    hide OnSegment;
    OnPoint(s, s);
    forall q | OnSegment(q, s, s)
      ensures q == s
    {
      OnPoint(q, s);
    }
  }

  /** Two clusters are close exactly when an end point of one is closer than the limit to
      a point of what stands for the other. */
  lemma CloseExactly(a: Cluster, b: Cluster, cuts: Cuts)
    requires cuts.minUnit > 0.0
    ensures ShortestDistanceCompatibility(a, b, cuts) <==>
            exists p, q :: Facing(a, b, cuts, p, q) && Dist2(p, q) < cuts.maxDist2
  {
    hide Dist2, OnSegment, ShortestDistanceSquared, Start, End, Tip, Place;
    LongIs(a, cuts);
    LongIs(b, cuts);
    NearestBody(Start(a, cuts), b, cuts);
    NearestBody(End(a, cuts), b, cuts);
    NearestBody(Start(b, cuts), a, cuts);
    NearestBody(End(b, cuts), a, cuts);
  }

  /** It does not matter in which order two clusters are compared. */
  lemma CompareSymmetric(a: Cluster, b: Cluster, cuts: Cuts)
    requires cuts.minUnit > 0.0
    ensures CompareClusters(a, b, cuts) <==> CompareClusters(b, a, cuts)
  {
    hide ShortestDistanceSquared, Start, End;
  }

  // ----- angles -----

  /** An angle less `k` half turns. */
  function Turned(angle: real, k: int): real { angle - 180.0 * (k as real) }

  /** Some whole number of half turns is nearer than the limit: the two directions span
      nearly the same line. */
  ghost predicate SameLine(angle: real, limit: real) { exists k :: -limit < Turned(angle, k) < limit }

  /** The angle test, exactly. Up to 270 degrees apart two angles are compatible when they
      span nearly the same line; farther apart, only the nearest of three is looked at. */
  lemma AngleExactly(a: Cluster, b: Cluster, cuts: Cuts)
    ensures var d, limit := a.angle - b.angle, cuts.maxAngle;
            Angle2DCompatibility(a, b, cuts) <==>
            if -270.0 <= d <= 270.0 then SameLine(d, limit) else -180.0 - limit < d < 180.0 + limit
  {
    var d, limit := a.angle - b.angle, cuts.maxAngle;
    assert Turned(d, 0) == d && Turned(d, 1) == d - 180.0 && Turned(d, -1) == d + 180.0;
    if -270.0 <= d <= 270.0 && SameLine(d, limit) {
      var k :| -limit < Turned(d, k) < limit;
      if k >= 2 {
        assert k as real >= 2.0;
      } else if k <= -2 {
        assert k as real <= -2.0;
      }
    }
  }

  /** Half turns more or less make no difference, while the angles stay 270 degrees apart at
      most. */
  lemma AngleReversed(a: Cluster, a': Cluster, b: Cluster, cuts: Cuts, m: int)
    requires a'.angle == a.angle + 180.0 * (m as real)
    requires -270.0 <= a.angle - b.angle <= 270.0 && -270.0 <= a'.angle - b.angle <= 270.0
    ensures Angle2DCompatibility(a', b, cuts) <==> Angle2DCompatibility(a, b, cuts)
  {
    AngleExactly(a, b, cuts);
    AngleExactly(a', b, cuts);
    var d, d', limit := a.angle - b.angle, a'.angle - b.angle, cuts.maxAngle;
    if k :| -limit < Turned(d, k) < limit {
      assert Turned(d', k + m) == Turned(d, k);
    }
    if k :| -limit < Turned(d', k) < limit {
      assert Turned(d, k - m) == Turned(d', k);
    }
  }

  /** Angles of one line within 270 degrees pass with any positive limit. */
  lemma ParallelPass(a: Cluster, b: Cluster, cuts: Cuts, m: int)
    requires a.angle - b.angle == 180.0 * (m as real) && -1 <= m <= 1 && cuts.maxAngle > 0.0
    ensures Angle2DCompatibility(a, b, cuts)
  {
    AngleExactly(a, b, cuts);
    assert Turned(a.angle - b.angle, m) == 0.0;
  }

  /** Perpendicular ones fail with any limit up to 90 degrees. */
  lemma PerpendicularFail(a: Cluster, b: Cluster, cuts: Cuts, m: int)
    requires a.angle - b.angle == 90.0 + 180.0 * (m as real) && cuts.maxAngle <= 90.0
    ensures !Angle2DCompatibility(a, b, cuts)
  {
    AngleExactly(a, b, cuts);
    var d := a.angle - b.angle;
    forall k
      ensures Turned(d, k) >= 90.0 || Turned(d, k) <= -90.0
    {
      if m - k >= 0 {
        assert (m - k) as real >= 0.0;
      } else {
        assert (m - k) as real <= -1.0;
      }
      assert Turned(d, k) == 90.0 + 180.0 * ((m - k) as real);
    }
    if m >= 1 {
      assert m as real >= 1.0;
    } else if m <= -2 {
      assert m as real <= -2.0;
    }
  }

  /** A full turn apart is one direction, but passes only with a limit above 180 degrees. */
  lemma FullTurnFails(a: Cluster, b: Cluster, cuts: Cuts)
    requires a.angle - b.angle == 360.0 || a.angle - b.angle == -360.0
    ensures Angle2DCompatibility(a, b, cuts) <==> cuts.maxAngle > 180.0
  {
    AngleExactly(a, b, cuts);
  }

  /** What clusters must be to be merged. */
  lemma CompareExactly(a: Cluster, b: Cluster, cuts: Cuts)
    requires cuts.minUnit > 0.0 && -270.0 <= a.angle - b.angle <= 270.0
    ensures CompareClusters(a, b, cuts) <==>
            && SameLine(a.angle - b.angle, cuts.maxAngle)
            && exists p, q :: Facing(a, b, cuts, p, q) && Dist2(p, q) < cuts.maxDist2
  {
    hide ShortestDistanceCompatibility, Facing, Dist2, SameLine;
    AngleExactly(a, b, cuts);
    CloseExactly(a, b, cuts);
  }

  /** The cluster run through the other way. */
  function Reversed(a: Cluster, angle: real): Cluster {
    a.(startWire := a.endWire, startTime := a.endTime, endWire := a.startWire, endTime := a.startTime, angle := angle)
  }

  lemma SegmentReversed(q: Point, s: Point, e: Point)
    requires OnSegment(q, s, e)
    ensures OnSegment(q, e, s)
  {
    var t :| 0.0 <= t <= 1.0 && q == Along(s, e, t);
    assert Along(e, s, 1.0 - t) == q;
  }

  lemma LongReversed(a: Cluster, angle: real, cuts: Cuts)
    ensures Long(Reversed(a, angle), cuts) <==> Long(a, cuts)
  {
    var dx, dy := (a.endWire - a.startWire) * cuts.wire, (a.endTime - a.startTime) * cuts.time;
    assert (a.startWire - a.endWire) * cuts.wire == -dx && (a.startTime - a.endTime) * cuts.time == -dy;
    assert -dx * -dx == dx * dx && -dy * -dy == dy * dy;
  }

  lemma FacingReversed(a: Cluster, angle: real, b: Cluster, cuts: Cuts, p: Point, q: Point)
    requires Long(a, cuts) && Facing(a, b, cuts, p, q)
    ensures Facing(Reversed(a, angle), b, cuts, p, q)
  {
    hide OnSegment;
    var a' := Reversed(a, angle);
    LongReversed(a, angle, cuts);
    if OnBody(q, a, cuts) {
      SegmentReversed(q, Place(a.startWire, a.startTime, cuts), Place(a.endWire, a.endTime, cuts));
    }
  }

  /** Reversing a cluster that is long enough, its angle by half a turn, changes nothing. */
  lemma CompareReversed(a: Cluster, b: Cluster, cuts: Cuts, angle: real)
    requires cuts.minUnit > 0.0 && Long(a, cuts) && (angle == a.angle + 180.0 || angle == a.angle - 180.0)
    requires -270.0 <= a.angle - b.angle <= 270.0 && -270.0 <= angle - b.angle <= 270.0
    ensures CompareClusters(Reversed(a, angle), b, cuts) <==> CompareClusters(a, b, cuts)
  {
    hide ShortestDistanceCompatibility, Facing, Angle2DCompatibility;
    var a' := Reversed(a, angle);
    AngleReversed(a, a', b, cuts, if angle == a.angle + 180.0 then 1 else -1);
    CloseExactly(a, b, cuts);
    CloseExactly(a', b, cuts);
    assert Reversed(a', a.angle) == a;
    LongReversed(a, angle, cuts);
    if p, q :| Facing(a, b, cuts, p, q) && Dist2(p, q) < cuts.maxDist2 {
      FacingReversed(a, angle, b, cuts, p, q);
    }
    if p, q :| Facing(a', b, cuts, p, q) && Dist2(p, q) < cuts.maxDist2 {
      FacingReversed(a', a.angle, b, cuts, p, q);
    }
  }

  /** Perpendicular clusters that meet are not merged. */
  lemma PerpendicularNotMerged()
    ensures var cuts := Cuts(1.0, 1.0, 1.0, 15.0, 1.0);
            !CompareClusters(Cluster(0, 0.0, 0.0, 10.0, 0.0, 0.0), Cluster(1, 0.0, 0.0, 0.0, 10.0, 90.0), cuts)
  {
    hide ShortestDistanceCompatibility;
    PerpendicularFail(Cluster(0, 0.0, 0.0, 10.0, 0.0, 0.0), Cluster(1, 0.0, 0.0, 0.0, 10.0, 90.0),
                      Cuts(1.0, 1.0, 1.0, 15.0, 1.0), -1);
  }
}
