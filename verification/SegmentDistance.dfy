/** Two segments that do not meet are closest at an end point. */
module SegmentDistance {
  import opened Segments
  import opened ClusterMerge
  import opened ClusterCompare

  predicate Unit(t: real) { 0.0 <= t <= 1.0 }

  predicate Edge(t: real) { t == 0.0 || t == 1.0 }

  function Move(t: real, k: real, dir: real): real { t + k * dir }

  /** How far one can go from `t` in direction `dir` before leaving `[0, 1]`. */
  lemma Room(t: real, dir: real) returns (m: real)
    requires Unit(t) && dir != 0.0
    ensures m >= 0.0 && Edge(Move(t, m, dir))
    ensures !Unit(t + dir) ==> m <= 1.0
  {
    var target := if dir > 0.0 then 1.0 else 0.0;
    m := (target - t) / dir;
    Quotient(target - t, dir, m);
    if dir > 0.0 {
      RoomAhead(1.0 - t, dir, m);
    } else {
      RoomAhead(t, -dir, m);
    }
  }

  lemma RoomAhead(room: real, dir: real, m: real)
    requires room >= 0.0 && dir > 0.0 && m * dir == room
    ensures m >= 0.0 && (dir > room ==> m <= 1.0)
  {
    Product(m, dir);
    Product(m - 1.0, dir);
    assert (m - 1.0) * dir == m * dir - dir;
  }

  lemma StayInside(t: real, dir: real, m: real, k: real)
    requires Unit(t) && Unit(Move(t, m, dir)) && 0.0 <= k <= m
    ensures Unit(Move(t, k, dir))
  {
    assert (m - k) * dir == m * dir - k * dir;
    if dir >= 0.0 {
      AtLeastZero(k, dir);
      AtLeastZero(m - k, dir);
    } else {
      AtLeastZero(k, -dir);
      AtLeastZero(m - k, -dir);
    }
  }

  lemma StayPut(t: real, k: real)
    ensures Move(t, k, 0.0) == t
  {
  }

  /** Leaving the unit square in a straight line. */
  lemma Exit(t: real, s: real, dt: real, ds: real) returns (k: real)
    requires Unit(t) && Unit(s) && (dt != 0.0 || ds != 0.0)
    ensures k >= 0.0 && Unit(Move(t, k, dt)) && Unit(Move(s, k, ds))
    ensures Edge(Move(t, k, dt)) || Edge(Move(s, k, ds))
    ensures !(Unit(t + dt) && Unit(s + ds)) ==> k <= 1.0
  {
    hide Move;
    if dt == 0.0 {
      k := Room(s, ds);
      StayPut(t, k);
    } else if ds == 0.0 {
      k := Room(t, dt);
      StayPut(s, k);
    } else {
      var m := Room(t, dt);
      var n := Room(s, ds);
      if m <= n {
        k := m;
        StayInside(s, ds, n, m);
      } else {
        k := n;
        StayInside(t, dt, m, n);
      }
    }
  }

  /** One coordinate of the way between two points, one on each of two lines: where it
      starts, and how it grows along either line. */
  datatype Axis = Axis(base: real, u: real, v: real) {
    function Gap(t: real, s: real): real { base + t * u - s * v }
  }

  function XAxis(a: Point, b: Point, c: Point, d: Point): Axis { Axis(a.x - c.x, b.x - a.x, d.x - c.x) }

  function YAxis(a: Point, b: Point, c: Point, d: Point): Axis { Axis(a.y - c.y, b.y - a.y, d.y - c.y) }

  lemma Moved(t: real, k: real, dir: real, u: real)
    ensures Move(t, k, dir) * u == t * u + k * (dir * u)
  {
  }

  /** Walking towards a place where the gap is zero shrinks it evenly. */
  lemma GapShrinks(axis: Axis, t: real, s: real, dt: real, ds: real, k: real)
    requires axis.Gap(t + dt, s + ds) == 0.0 && 0.0 <= k <= 1.0
    ensures Pow2(axis.Gap(Move(t, k, dt), Move(s, k, ds))) <= Pow2(axis.Gap(t, s))
  {
    var g, w := axis.Gap(t, s), dt * axis.u - ds * axis.v;
    assert w == -g by {
      assert (t + dt) * axis.u == t * axis.u + dt * axis.u && (s + ds) * axis.v == s * axis.v + ds * axis.v;
    }
    Moved(t, k, dt, axis.u);
    Moved(s, k, ds, axis.v);
    assert k * w == k * (dt * axis.u) - k * (ds * axis.v);
    assert axis.Gap(Move(t, k, dt), Move(s, k, ds)) == (1.0 - k) * g by {
      assert (1.0 - k) * g == g - k * g;
      assert k * w == -(k * g);
    }
    Shrunk(g, k);
  }

  /** Walking along a direction common to both lines keeps it. */
  lemma GapStays(axis: Axis, t: real, s: real, dt: real, ds: real, k: real)
    requires dt * axis.u == ds * axis.v
    ensures axis.Gap(Move(t, k, dt), Move(s, k, ds)) == axis.Gap(t, s)
  {
    Moved(t, k, dt, axis.u);
    Moved(s, k, ds, axis.v);
    hide Move;
  }

  lemma Shrunk(g: real, k: real)
    requires 0.0 <= k <= 1.0
    ensures Pow2((1.0 - k) * g) <= Pow2(g)
  {
    var m := 1.0 - k;
    assert Pow2(m * g) == (m * m) * Pow2(g);
    Square(g);
    AtLeastZero(m, 1.0 - m);
    AtLeastZero(1.0 - m * m, Pow2(g));
    assert (1.0 - m * m) * Pow2(g) == Pow2(g) - (m * m) * Pow2(g);
  }

  lemma GapIs(a: Point, b: Point, c: Point, d: Point, t: real, s: real)
    ensures Along(a, b, t).x - Along(c, d, s).x == XAxis(a, b, c, d).Gap(t, s)
    ensures Along(a, b, t).y - Along(c, d, s).y == YAxis(a, b, c, d).Gap(t, s)
    ensures Dist2(Along(a, b, t), Along(c, d, s))
         == Pow2(XAxis(a, b, c, d).Gap(t, s)) + Pow2(YAxis(a, b, c, d).Gap(t, s))
  {
    hide Pow2;
  }

  /** A direction in which neither coordinate of the gap changes, on parallel lines. */
  lemma Sideways(a: Point, b: Point, c: Point, d: Point) returns (dt: real, ds: real)
    requires Turn(a, b, c, d) == 0.0
    ensures dt != 0.0 || ds != 0.0
    ensures dt * XAxis(a, b, c, d).u == ds * XAxis(a, b, c, d).v
    ensures dt * YAxis(a, b, c, d).u == ds * YAxis(a, b, c, d).v
  {
    var ux, uy, vx, vy := b.x - a.x, b.y - a.y, d.x - c.x, d.y - c.y;
    if vx == 0.0 && vy == 0.0 {
      dt, ds := 0.0, 1.0;
    } else {
      dt, ds := if vx == 0.0 then vy else vx, if vx == 0.0 then uy else ux;
      if vx == 0.0 {
        Quotient(0.0, vy, ux);
        Quotient(0.0, vy, 0.0);
      }
    }
  }

  /** For any two points of segments that do not meet there are two no farther apart, one
      of them an end point. */
  lemma EndPointCloser(a: Point, b: Point, c: Point, d: Point, t: real, s: real) returns (t': real, s': real)
    requires !Share(a, b, c, d) && Unit(t) && Unit(s)
    ensures Unit(t') && Unit(s') && (Edge(t') || Edge(s'))
    ensures Dist2(Along(a, b, t'), Along(c, d, s')) <= Dist2(Along(a, b, t), Along(c, d, s))
  {
    hide Pow2, Dist2, Along, Cross, Turn, Share, XAxis, YAxis, Axis.Gap, Move;
    var dt, ds, k: real;
    if Turn(a, b, c, d) == 0.0 {
      dt, ds := Sideways(a, b, c, d);
      k := Exit(t, s, dt, ds);
      GapStays(XAxis(a, b, c, d), t, s, dt, ds, k);
      GapStays(YAxis(a, b, c, d), t, s, dt, ds, k);
    } else {
      var t0, s0 := Cross(a, c, d) / Turn(a, b, c, d), -Cross(a, b, c) / Turn(a, b, c, d);
      CrossingPoint(a, b, c, d, t0, s0);
      NotInside(a, b, c, d, t0, s0);
      GapIs(a, b, c, d, t0, s0);
      dt, ds := t0 - t, s0 - s;
      assert t + dt == t0 && s + ds == s0;
      k := Exit(t, s, dt, ds);
      GapShrinks(XAxis(a, b, c, d), t, s, dt, ds, k);
      GapShrinks(YAxis(a, b, c, d), t, s, dt, ds, k);
    }
    t', s' := Move(t, k, dt), Move(s, k, ds);
    GapIs(a, b, c, d, t, s);
    GapIs(a, b, c, d, t', s');
  }

  lemma NotInside(a: Point, b: Point, c: Point, d: Point, t: real, s: real)
    requires !Share(a, b, c, d) && Along(a, b, t) == Along(c, d, s)
    ensures !(Unit(t) && Unit(s))
  {
    if Unit(t) && Unit(s) {
      assert OnSegment(Along(a, b, t), a, b) && OnSegment(Along(a, b, t), c, d);
    }
  }

  // ----- what the distance test means -----

  /** A point of each cluster, where the far end of a short cluster may stand for it once. */
  ghost predicate Across(a: Cluster, b: Cluster, cuts: Cuts, p: Point, q: Point) {
    || (OnBody(p, a, cuts) && OnBody(q, b, cuts))
    || (p == Place(a.endWire, a.endTime, cuts) && OnBody(q, b, cuts))
    || (OnBody(p, a, cuts) && q == Place(b.endWire, b.endTime, cuts))
  }

  /** Both are segments, and they meet. */
  ghost predicate Crossing(a: Cluster, b: Cluster, cuts: Cuts) {
    && Long(a, cuts) && Long(b, cuts)
    && Share(Place(a.startWire, a.startTime, cuts), Place(a.endWire, a.endTime, cuts),
             Place(b.startWire, b.startTime, cuts), Place(b.endWire, b.endTime, cuts))
  }

  /** Clusters that do not cross pass the distance test exactly when some point of one comes
      closer than the limit to some point of the other. */
  lemma CloseMeansClose(a: Cluster, b: Cluster, cuts: Cuts)
    requires cuts.minUnit > 0.0
    ensures !Crossing(a, b, cuts) ==>
              (ShortestDistanceCompatibility(a, b, cuts) <==>
               exists p, q :: Across(a, b, cuts, p, q) && Dist2(p, q) < cuts.maxDist2)
  {
    hide ShortestDistanceCompatibility, Dist2, Facing, Across, Crossing;
    CloseExactly(a, b, cuts);
    if !Crossing(a, b, cuts) {
      if ShortestDistanceCompatibility(a, b, cuts) {
        var p, q :| Facing(a, b, cuts, p, q) && Dist2(p, q) < cuts.maxDist2;
        FacingAcross(a, b, cuts, p, q);
      }
      if p, q :| Across(a, b, cuts, p, q) && Dist2(p, q) < cuts.maxDist2 {
        AcrossFacing(a, b, cuts, p, q);
      }
    }
  }

  lemma Swapped(p: Point, q: Point)
    ensures Dist2(p, q) == Dist2(q, p)
  {
  }

  lemma FacingAcross(a: Cluster, b: Cluster, cuts: Cuts, p: Point, q: Point)
    requires Facing(a, b, cuts, p, q) && Dist2(p, q) < cuts.maxDist2
    ensures exists x, y :: Across(a, b, cuts, x, y) && Dist2(x, y) < cuts.maxDist2
  {
    hide Dist2, OnSegment, Start, End, Tip, Place;
    LongIs(a, cuts);
    LongIs(b, cuts);
    EndsOn(Start(a, cuts), Tip(a, cuts));
    EndsOn(Start(b, cuts), Tip(b, cuts));
    Swapped(p, q);
    assert Across(a, b, cuts, p, q) || Across(a, b, cuts, q, p);
  }

  lemma AcrossFacing(a: Cluster, b: Cluster, cuts: Cuts, p: Point, q: Point)
    requires Across(a, b, cuts, p, q) && Dist2(p, q) < cuts.maxDist2 && !Crossing(a, b, cuts)
    ensures exists x, y :: Facing(a, b, cuts, x, y) && Dist2(x, y) < cuts.maxDist2
  {
    hide Dist2, Start, End, OnSegment, Share, Place;
    LongIs(a, cuts);
    LongIs(b, cuts);
    Swapped(p, q);
    if Long(a, cuts) && Long(b, cuts) && OnBody(p, a, cuts) && OnBody(q, b, cuts) {
      BodiesFacing(a, b, cuts, p, q);
    } else {
      OnPoint(p, Start(a, cuts));
      OnPoint(q, Start(b, cuts));
      EndsOn(Start(a, cuts), End(a, cuts));
      EndsOn(Start(b, cuts), End(b, cuts));
      assert Facing(a, b, cuts, p, q) || Facing(a, b, cuts, q, p);
    }
  }

  lemma BodiesFacing(a: Cluster, b: Cluster, cuts: Cuts, p: Point, q: Point)
    requires Long(a, cuts) && Long(b, cuts) && OnBody(p, a, cuts) && OnBody(q, b, cuts) && !Crossing(a, b, cuts)
    requires Dist2(p, q) < cuts.maxDist2
    ensures exists x, y :: Facing(a, b, cuts, x, y) && Dist2(x, y) < cuts.maxDist2
  {
    hide Dist2, Start, End, Along, Share, Place, Long;
    LongIs(a, cuts);
    LongIs(b, cuts);
    var s1, e1, s2, e2 := Start(a, cuts), End(a, cuts), Start(b, cuts), End(b, cuts);
    EndsOn(s1, e1);
    EndsOn(s2, e2);
    var t: real :| 0.0 <= t <= 1.0 && p == Along(s1, e1, t);
    var s: real :| 0.0 <= s <= 1.0 && q == Along(s2, e2, s);
    var t', s' := EndPointCloser(s1, e1, s2, e2, t, s);
    var x, y := Along(s1, e1, t'), Along(s2, e2, s');
    assert OnSegment(x, s1, e1) && OnSegment(y, s2, e2);
    Swapped(x, y);
    assert Facing(a, b, cuts, x, y) || Facing(a, b, cuts, y, x);
  }

  lemma Halfway(p: Point, s: Point, e: Point)
    requires Dist2(e, s) == 324.0 && Dot(p, s, e) == 162.0 && Dist2(p, Along(s, e, 0.5)) == 81.0
    ensures ShortestDistanceSquared(p, s, e, 1.0) == 81.0
  {
    hide Dist2, Dot, Along;
  }

  lemma FarEnd(p: Point, s: Point, e: Point)
    requires || (s == Point(-9.0, 0.0) && e == Point(9.0, 0.0) && p.x == 0.0 && (p.y == 9.0 || p.y == -9.0))
             || (s == Point(0.0, -9.0) && e == Point(0.0, 9.0) && p.y == 0.0 && (p.x == 9.0 || p.x == -9.0))
    ensures ShortestDistanceSquared(p, s, e, 1.0) == 81.0 && Dist2(e, s) == 324.0
  {
    hide ShortestDistanceSquared, Pow2, Dot;
    Squares();
    if p.x == 0.0 {
      DotOf(p, s, e, 9.0, p.y, 18.0, 0.0);
    } else {
      DotOf(p, s, e, p.x, 9.0, 0.0, 18.0);
    }
    assert Along(s, e, 0.5) == Point(0.0, 0.0);
    Halfway(p, s, e);
  }

  lemma Squares()
    ensures Pow2(9.0) == 81.0 == Pow2(-9.0) && Pow2(0.0) == 0.0 && Pow2(18.0) == 324.0
  {
  }

  lemma FarEnds()
    ensures var s1, e1, s2, e2 := Point(-9.0, 0.0), Point(9.0, 0.0), Point(0.0, -9.0), Point(0.0, 9.0);
            && ShortestDistanceSquared(s1, s2, e2, 1.0) == 81.0 == ShortestDistanceSquared(e1, s2, e2, 1.0)
            && ShortestDistanceSquared(s2, s1, e1, 1.0) == 81.0 == ShortestDistanceSquared(e2, s1, e1, 1.0)
            && Share(s1, e1, s2, e2) && Dist2(e1, s1) == 324.0 == Dist2(e2, s2)
  {
    hide ShortestDistanceSquared, Dist2, OnSegment;
    var s1, e1, s2, e2 := Point(-9.0, 0.0), Point(9.0, 0.0), Point(0.0, -9.0), Point(0.0, 9.0);
    FarMeet(s1, e1);
    FarMeet(s2, e2);
    FarEnd(s1, s2, e2);
    FarEnd(e1, s2, e2);
    FarEnd(s2, s1, e1);
    FarEnd(e2, s1, e1);
  }

  lemma FarMeet(s: Point, e: Point)
    requires s.x == -e.x && s.y == -e.y
    ensures OnSegment(Point(0.0, 0.0), s, e)
  {
    assert Along(s, e, 0.5) == Point(0.0, 0.0);
  }

  lemma CrossingPair(a: Cluster, b: Cluster, cuts: Cuts)
    requires cuts.minUnit == 1.0 == cuts.maxDist2
    requires Start(a, cuts) == Point(-9.0, 0.0) && End(a, cuts) == Point(9.0, 0.0)
    requires Start(b, cuts) == Point(0.0, -9.0) && End(b, cuts) == Point(0.0, 9.0)
    ensures Long(a, cuts) && Long(b, cuts) && Crossing(a, b, cuts) && !ShortestDistanceCompatibility(a, b, cuts)
  {
    hide ShortestDistanceSquared, Share, Dist2, Long, Start, End, Place;
    LongIs(a, cuts);
    LongIs(b, cuts);
    FarEnds();
  }

  /** Clusters that cross far from their ends fail the test, though they meet. */
  lemma CrossingNotClose()
    ensures var a, b := Cluster(0, -9.0, 0.0, 9.0, 0.0, 0.0), Cluster(1, 0.0, -9.0, 0.0, 9.0, 0.0);
            var cuts := Cuts(1.0, 1.0, 1.0, 1.0, 1.0);
            Long(a, cuts) && Long(b, cuts) && Crossing(a, b, cuts) && !ShortestDistanceCompatibility(a, b, cuts)
  {
    hide ShortestDistanceCompatibility, Crossing, Long;
    CrossingPair(Cluster(0, -9.0, 0.0, 9.0, 0.0, 0.0), Cluster(1, 0.0, -9.0, 0.0, 9.0, 0.0),
                 Cuts(1.0, 1.0, 1.0, 1.0, 1.0));
  }
}
