/** The Hough accumulator: a sparse table of votes, one row per angle. A point votes for
    the cells its distance runs through from one angle to the next. */
module Hough {

  type Table = seq<map<int, int>>

  /** The result of adding a point: a count, and the cell and row that hold it. */
  datatype Peak = Peak(val: int, cell: int, row: int)

  function Votes(t: Table, row: nat, cell: int): int {
    if row < |t| && cell in t[row] then t[row][cell] else 0
  }

  predicate Kept(t: Table, row: nat, cell: int) { row < |t| && cell in t[row] }

  /** The distance of point `x`, `y` at an angle, scaled and shifted to the middle of the
      row; `far` stands for the trigonometry. At angle zero it is `x` itself. */
  datatype Curve = Curve(far: (nat, int, int) -> int, center: int, scale: int) {
    function At(row: nat, x: int, y: int): int {
      if row == 0 then center + scale * x else far(row, x, y)
    }

    /** The cells row `row` votes for: from the last distance up to, not including, the
        new one; the one cell if they are equal. */
    predicate Visits(row: nat, x: int, y: int, cell: int)
      requires row > 0
    {
      var last, dist := At(row - 1, x, y), At(row, x, y);
      if last == dist then cell == last else Between(last, dist, cell)
    }
  }

  /** From `from` towards `to`, without `to`. */
  predicate Between(from: int, to: int, cell: int) { from <= cell < to || to < cell <= from }

  predicate OnCurve(curve: Curve, rows: nat, x: int, y: int, row: nat, cell: int) {
    0 < row < rows && curve.Visits(row, x, y, cell)
  }

  /** `t` became `t'` by `weight` votes for every cell on the curve, and nothing else. */
  ghost predicate Cast(t: Table, t': Table, curve: Curve, x: int, y: int, weight: int) {
    && |t'| == |t|
    && (forall row: nat, cell :: Votes(t', row, cell)
          == Votes(t, row, cell) + if OnCurve(curve, |t|, x, y, row, cell) then weight else 0)
    && (forall row: nat, cell :: Kept(t', row, cell)
          <==> Kept(t, row, cell) || OnCurve(curve, |t|, x, y, row, cell))
  }

  /** Whether the curve comes through `row`, `cell` before `row2`, `cell2`. */
  predicate Sooner(curve: Curve, x: int, y: int, row: nat, cell: int, row2: nat, cell2: int) {
    row < row2 || (0 < row == row2 && Between(curve.At(row - 1, x, y), cell2, cell))
  }

  /** The largest count found on the curve before voting, at the first cell that has it;
      minus one in all three places if no cell on the curve had a vote. */
  ghost predicate IsPeak(t: Table, curve: Curve, x: int, y: int, peak: Peak) {
    if peak.val > 0 then
      && peak.row > 0 && OnCurve(curve, |t|, x, y, peak.row, peak.cell)
      && Votes(t, peak.row, peak.cell) == peak.val
      && (forall row: nat, cell :: OnCurve(curve, |t|, x, y, row, cell) ==> Votes(t, row, cell) <= peak.val)
      && (forall row: nat, cell ::
            OnCurve(curve, |t|, x, y, row, cell) && Sooner(curve, x, y, row, cell, peak.row, peak.cell) ==>
              Votes(t, row, cell) < peak.val)
    else
      && peak == Peak(-1, -1, -1)
      && (forall row: nat, cell :: OnCurve(curve, |t|, x, y, row, cell) ==> Votes(t, row, cell) <= 0)
  }

  /** Halving that drops the fraction. */
  function Half(n: int): int { if n >= 0 then n / 2 else -(-n / 2) }

  /** The whole part of a square root, by steps of one. */
  function Root(n: int): nat {
    if n <= 0 then 0
    else
      var r := Root(n - 1);
      if Squared(r + 1) <= n then r + 1 else r
  }

  function Squared(x: int): int { x * x }

  lemma {:induction false} RootIs(n: nat)
    ensures Squared(Root(n)) <= n < Squared(Root(n) + 1)
  {
    if n > 0 {
      RootIs(n - 1);
    }
  }

  lemma NotNegative(scale: int, dx: int, dy: int)
    ensures Squared(scale) * (Squared(dx) + Squared(dy)) >= 0
  {
    SquaredNotNegative(scale);
    SquaredNotNegative(dx);
    SquaredNotNegative(dy);
  }

  lemma SquaredNotNegative(x: int)
    ensures Squared(x) >= 0
  {
  }

  /** The square of twice the diagonal of a `dx` by `dy` field, scaled. */
  function DiagonalSquared(dx: int, dy: int, scale: int): int {
    4 * (Squared(scale) * (Squared(dx) + Squared(dy)))
  }

  /** The scaled diagonal without its fraction. */
  function Diagonal(dx: int, dy: int, scale: int): int {
    var r: int := Root(DiagonalSquared(dx, dy, scale));
    if scale >= 0 then r else -r
  }

  /** A row is as long as the scaled diagonal, to within one cell. */
  lemma DiagonalExactly(dx: int, dy: int, scale: int)
    ensures var n, r: int := DiagonalSquared(dx, dy, scale), Diagonal(dx, dy, scale);
            if scale >= 0 then r >= 0 && Squared(r) <= n < Squared(r + 1)
            else r <= 0 && Squared(-r) <= n < Squared(-r + 1)
  {
    hide Squared, Root;
    NotNegative(scale, dx, dy);
    RootIs(DiagonalSquared(dx, dy, scale));
  }

  /** The same in plain arithmetic: `length` is twice the scaled diagonal without its
      fraction, with the sign of the scale. */
  predicate IsRowLength(length: int, dx: int, dy: int, scale: int) {
    var n := 4 * (scale * scale * (dx * dx + dy * dy));
    if scale >= 0 then length >= 0 && length * length <= n < (length + 1) * (length + 1)
    else length <= 0 && length * length <= n < (1 - length) * (1 - length)
  }

  lemma RowLengthIs(dx: int, dy: int, scale: int)
    ensures IsRowLength(Diagonal(dx, dy, scale), dx, dy, scale)
  {
    hide Diagonal;
    DiagonalExactly(dx, dy, scale);
    var r := Diagonal(dx, dy, scale);
    assert -r * -r == r * r;
  }

  datatype Point = Point(x: int, y: int)

  datatype Call = Add(p: Point) | Subtract(p: Point)

  predicate Inside(p: Point, dx: int, dy: int) { 0 <= p.x <= dx && 0 <= p.y <= dy }

  /** What one call does to one cell. */
  function Effect(call: Call, curve: Curve, rows: nat, dx: int, dy: int, row: nat, cell: int): int {
    if Inside(call.p, dx, dy) && OnCurve(curve, rows, call.p.x, call.p.y, row, cell)
    then if call.Add? then 1 else -1
    else 0
  }

  /** Adding points minus subtracting points through one cell, over a whole run. */
  function Tally(run: seq<Call>, curve: Curve, rows: nat, dx: int, dy: int, row: nat, cell: int): int {
    if run == [] then 0
    else Tally(run[..|run| - 1], curve, rows, dx, dy, row, cell)
         + Effect(run[|run| - 1], curve, rows, dx, dy, row, cell)
  }

  function Points(run: seq<Call>, dx: int, dy: int): int {
    if run == [] then 0
    else Points(run[..|run| - 1], dx, dy)
         + if !Inside(run[|run| - 1].p, dx, dy) then 0 else if run[|run| - 1].Add? then 1 else -1
  }

  class HoughTransform {
    const far: (nat, int, int) -> int
    var dx: int
    var dy: int
    var accum: Table
    var rowLength: int
    var numAccumulated: int
    var rhoResolutionFactor: int
    var numAngleCells: nat
    /** The calls since `Init`. */
    ghost var run: seq<Call>

    function Line(): Curve
      reads this
    {
      Curve(far, Half(rowLength), rhoResolutionFactor)
    }

    /** Every cell holds its tally over the run, and the counter counts the points. */
    ghost predicate Valid()
      reads this
    {
      && |accum| == numAngleCells
      && numAccumulated == Points(run, dx, dy)
      && Tallied(accum, run, Line(), dx, dy)
    }

    constructor (far: (nat, int, int) -> int)
      ensures this.far == far && Valid() && run == [] && numAngleCells == 0
    {
      this.far := far;
      dx, dy, accum, rowLength, numAccumulated, rhoResolutionFactor, numAngleCells := 0, 0, [], 0, 0, 0, 0;
      run := [];
    }

    method Init(dx: int, dy: int, rhores: int, numACells: nat)
      modifies this
      ensures Valid() && run == [] && this.dx == dx && this.dy == dy && rowLength == Diagonal(dx, dy, rhores)
      ensures numAngleCells == numACells && Line() == Curve(far, Half(rowLength), rhores)
      ensures forall row: nat, cell :: Votes(accum, row, cell) == 0 && !Kept(accum, row, cell)
    {
      numAngleCells := numACells;
      rhoResolutionFactor := rhores;
      numAccumulated := 0;
      this.dx, this.dy := dx, dy;
      rowLength := Diagonal(dx, dy, rhores);
      accum := seq(numACells, i => map[]);
      run := [];
    }

    method AddPointReturnMax(x: int, y: int) returns (max: Peak)
      requires Valid()
      modifies this`accum, this`numAccumulated, this`run
      ensures Valid() && run == old(run) + [Add(Point(x, y))]
      ensures if Inside(Point(x, y), dx, dy)
              then Cast(old(accum), accum, Line(), x, y, 1) && IsPeak(old(accum), Line(), x, y, max)
              else accum == old(accum) && max == Peak(0, 0, 0)
    {
      hide Cast, IsPeak, OnCurve, Votes;
      ghost var call := Add(Point(x, y));
      run := run + [call];
      if x > dx || y > dy || x < 0 || y < 0 {
        return Peak(0, 0, 0);
      }
      max := DoAddPointReturnMax(x, y);
      TallyGrows(old(accum), accum, Line(), dx, dy, old(run), call);
    }

    method SubtractPoint(x: int, y: int) returns (ok: bool)
      requires Valid()
      modifies this`accum, this`numAccumulated, this`run
      ensures Valid() && run == old(run) + [Subtract(Point(x, y))]
      ensures ok <==> Inside(Point(x, y), dx, dy)
      ensures if ok then Cast(old(accum), accum, Line(), x, y, -1) else accum == old(accum)
    {
      hide Cast, OnCurve, Votes;
      ghost var call := Subtract(Point(x, y));
      run := run + [call];
      if x > dx || y > dy || x < 0 || y < 0 {
        return false;
      }
      ok := DoSubtractPoint(x, y);
      TallyGrows(old(accum), accum, Line(), dx, dy, old(run), call);
    }

    method DoAddPointReturnMax(x: int, y: int) returns (max: Peak)
      requires |accum| == numAngleCells
      modifies this`accum, this`numAccumulated
      ensures Cast(old(accum), accum, Line(), x, y, 1) && IsPeak(old(accum), Line(), x, y, max)
      ensures numAccumulated == old(numAccumulated) + 1
    {
      hide Cast, IsPeak, Progress, Leading, Passed, OnCurve;
      max := Peak(-1, -1, -1);
      var maxVal := 0;
      ghost var pre, curve := accum, Line();
      var lastDist := Half(rowLength) + rhoResolutionFactor * x;
      var a := 1;
      NothingPassed(pre, curve, x, y, lastDist, 1);
      while a < numAngleCells
        invariant 1 <= a && (a <= numAngleCells || a == 1)
        invariant numAccumulated == old(numAccumulated)
        invariant lastDist == curve.At(a - 1, x, y)
        invariant |accum| == |pre| == numAngleCells && maxVal >= 0
        invariant Progress(pre, accum, curve, x, y, a, lastDist, 1)
        invariant Leading(pre, curve, x, y, a, lastDist, maxVal, max)
      {
        var dist := far(a, x, y);
        if lastDist == dist {
          OnlyCell(curve, |pre|, x, y, a, dist);
          LeadStep(pre, accum, curve, x, y, a, lastDist, a + 1, dist, maxVal, max);
          ProgressStep(pre, accum, curve, x, y, a, lastDist, a + 1, dist, 1);
          var val := Votes(accum, a, lastDist);
          accum := accum[a := accum[a][lastDist := val + 1]];
          if maxVal < val {
            maxVal, max := val, Peak(val, lastDist, a);
          }
        } else {
          var stepDir := if dist > lastDist then 1 else -1;
          var cell := lastDist;
          while cell != dist
            invariant numAccumulated == old(numAccumulated)
            invariant if stepDir == 1 then lastDist <= cell <= dist else dist <= cell <= lastDist
            invariant |accum| == |pre| == numAngleCells && maxVal >= 0
            invariant Progress(pre, accum, curve, x, y, a, cell, 1)
            invariant Leading(pre, curve, x, y, a, cell, maxVal, max)
            decreases (dist - cell) * stepDir
          {
            NextCell(curve, |pre|, x, y, a, cell, stepDir);
            LeadStep(pre, accum, curve, x, y, a, cell, a, cell + stepDir, maxVal, max);
            ProgressStep(pre, accum, curve, x, y, a, cell, a, cell + stepDir, 1);
            var val := Votes(accum, a, cell);
            accum := accum[a := accum[a][cell := val + 1]];
            if maxVal < val {
              maxVal, max := val, Peak(val, cell, a);
            }
            cell := cell + stepDir;
          }
          RowDone(pre, accum, curve, x, y, a, 1);
          LeadDone(pre, curve, x, y, a, maxVal, max);
        }
        lastDist := dist;
        a := a + 1;
      }
      AllPassed(pre, accum, curve, x, y, a, lastDist, 1);
      AllLed(pre, curve, x, y, a, lastDist, maxVal, max);
      numAccumulated := numAccumulated + 1;
    }

    method DoSubtractPoint(x: int, y: int) returns (ok: bool)
      requires |accum| == numAngleCells
      modifies this`accum, this`numAccumulated
      ensures ok && Cast(old(accum), accum, Line(), x, y, -1)
      ensures numAccumulated == old(numAccumulated) - 1
    {
      hide Cast, Progress, Passed, OnCurve;
      ghost var pre, curve := accum, Line();
      var lastDist := Half(rowLength) + rhoResolutionFactor * x;
      var a := 1;
      NothingPassed(pre, curve, x, y, lastDist, -1);
      while a < numAngleCells
        invariant 1 <= a && (a <= numAngleCells || a == 1)
        invariant numAccumulated == old(numAccumulated)
        invariant lastDist == curve.At(a - 1, x, y)
        invariant |accum| == |pre| == numAngleCells
        invariant Progress(pre, accum, curve, x, y, a, lastDist, -1)
      {
        var dist := far(a, x, y);
        if lastDist == dist {
          OnlyCell(curve, |pre|, x, y, a, dist);
          ProgressStep(pre, accum, curve, x, y, a, lastDist, a + 1, dist, -1);
          accum := accum[a := accum[a][lastDist := Votes(accum, a, lastDist) - 1]];
        } else {
          var stepDir := if dist > lastDist then 1 else -1;
          var cell := lastDist;
          while cell != dist
            invariant numAccumulated == old(numAccumulated)
            invariant if stepDir == 1 then lastDist <= cell <= dist else dist <= cell <= lastDist
            invariant |accum| == |pre| == numAngleCells
            invariant Progress(pre, accum, curve, x, y, a, cell, -1)
            decreases (dist - cell) * stepDir
          {
            NextCell(curve, |pre|, x, y, a, cell, stepDir);
            ProgressStep(pre, accum, curve, x, y, a, cell, a, cell + stepDir, -1);
            accum := accum[a := accum[a][cell := Votes(accum, a, cell) - 1]];
            cell := cell + stepDir;
          }
          RowDone(pre, accum, curve, x, y, a, -1);
        }
        lastDist := dist;
        a := a + 1;
      }
      AllPassed(pre, accum, curve, x, y, a, lastDist, -1);
      numAccumulated := numAccumulated - 1;
      return true;
    }
  }

  // ----- half-way through a point -----

  /** The part of the curve before row `a` and, in row `a`, before cell `upto`. */
  predicate Passed(curve: Curve, rows: nat, x: int, y: int, a: nat, upto: int, row: nat, cell: int) {
    if row < a then OnCurve(curve, rows, x, y, row, cell)
    else 0 < row == a < rows && Between(curve.At(a - 1, x, y), upto, cell)
  }

  ghost predicate Progress(t: Table, t': Table, curve: Curve, x: int, y: int, a: nat, upto: int, weight: int) {
    && |t'| == |t|
    && (forall row: nat, cell :: Votes(t', row, cell)
          == Votes(t, row, cell) + if Passed(curve, |t|, x, y, a, upto, row, cell) then weight else 0)
    && (forall row: nat, cell :: Kept(t', row, cell)
          <==> Kept(t, row, cell) || Passed(curve, |t|, x, y, a, upto, row, cell))
  }

  ghost predicate Leading(t: Table, curve: Curve, x: int, y: int, a: nat, upto: int, maxVal: int, peak: Peak) {
    && (forall row: nat, cell :: Passed(curve, |t|, x, y, a, upto, row, cell) ==> Votes(t, row, cell) <= maxVal)
    && if maxVal == 0 then peak == Peak(-1, -1, -1)
       else
         && 0 < maxVal == peak.val && peak.row > 0
         && Passed(curve, |t|, x, y, a, upto, peak.row, peak.cell)
         && Votes(t, peak.row, peak.cell) == maxVal
         && (forall row: nat, cell ::
               Passed(curve, |t|, x, y, a, upto, row, cell) && Sooner(curve, x, y, row, cell, peak.row, peak.cell) ==>
                 Votes(t, row, cell) < maxVal)
  }

  lemma NothingPassed(t: Table, curve: Curve, x: int, y: int, upto: int, weight: int)
    requires upto == curve.At(0, x, y)
    ensures Progress(t, t, curve, x, y, 1, upto, weight)
    ensures Leading(t, curve, x, y, 1, upto, 0, Peak(-1, -1, -1))
  {
  }

  /** From here to there is exactly the one cell `upto` of row `a`, not passed before. */
  ghost predicate OneMore(curve: Curve, rows: nat, x: int, y: int, a: nat, upto: int, b: nat, upto2: int) {
    && !Passed(curve, rows, x, y, a, upto, a, upto)
    && (forall row: nat, cell :: Passed(curve, rows, x, y, b, upto2, row, cell)
          <==> Passed(curve, rows, x, y, a, upto, row, cell) || (row == a && cell == upto))
    && (forall row: nat, cell :: Passed(curve, rows, x, y, a, upto, row, cell)
          ==> Sooner(curve, x, y, row, cell, a, upto) && !Sooner(curve, x, y, a, upto, row, cell))
    && !Sooner(curve, x, y, a, upto, a, upto)
  }

  lemma NextCell(curve: Curve, rows: nat, x: int, y: int, a: nat, cell: int, dir: int)
    requires 0 < a < rows
    requires var last, dist := curve.At(a - 1, x, y), curve.At(a, x, y);
             if dir == 1 then last <= cell < dist else dir == -1 && dist < cell <= last
    ensures OneMore(curve, rows, x, y, a, cell, a, cell + dir)
  {
  }

  lemma OnlyCell(curve: Curve, rows: nat, x: int, y: int, a: nat, dist: int)
    requires 0 < a < rows && dist == curve.At(a - 1, x, y) == curve.At(a, x, y)
    ensures OneMore(curve, rows, x, y, a, dist, a + 1, dist)
  {
  }

  lemma ProgressStep(t: Table, t': Table, curve: Curve, x: int, y: int, a: nat, upto: int, b: nat, upto2: int,
                     weight: int)
    requires a < |t| && OneMore(curve, |t|, x, y, a, upto, b, upto2) && Progress(t, t', curve, x, y, a, upto, weight)
    ensures |t'| == |t| && Votes(t', a, upto) == Votes(t, a, upto)
    ensures Progress(t, t'[a := t'[a][upto := Votes(t', a, upto) + weight]], curve, x, y, b, upto2, weight)
  {
    hide Passed;
  }

  lemma LeadStep(t: Table, t': Table, curve: Curve, x: int, y: int, a: nat, upto: int, b: nat, upto2: int,
                 maxVal: int, peak: Peak)
    requires 0 < a < |t| && OneMore(curve, |t|, x, y, a, upto, b, upto2)
    requires Leading(t, curve, x, y, a, upto, maxVal, peak) && maxVal >= 0
    ensures var val := Votes(t, a, upto);
            if maxVal < val then Leading(t, curve, x, y, b, upto2, val, Peak(val, upto, a))
            else Leading(t, curve, x, y, b, upto2, maxVal, peak)
  {
    hide Passed, Votes, Sooner;
  }

  lemma RowDone(t: Table, t': Table, curve: Curve, x: int, y: int, a: nat, weight: int)
    requires 0 < a < |t| && curve.At(a - 1, x, y) != curve.At(a, x, y)
    requires Progress(t, t', curve, x, y, a, curve.At(a, x, y), weight)
    ensures Progress(t, t', curve, x, y, a + 1, curve.At(a, x, y), weight)
  {
    SamePassed(curve, |t|, x, y, a);
    hide Passed;
  }

  lemma LeadDone(t: Table, curve: Curve, x: int, y: int, a: nat, maxVal: int, peak: Peak)
    requires 0 < a < |t| && curve.At(a - 1, x, y) != curve.At(a, x, y)
    requires Leading(t, curve, x, y, a, curve.At(a, x, y), maxVal, peak)
    ensures Leading(t, curve, x, y, a + 1, curve.At(a, x, y), maxVal, peak)
  {
    SamePassed(curve, |t|, x, y, a);
    hide Passed;
  }

  lemma SamePassed(curve: Curve, rows: nat, x: int, y: int, a: nat)
    requires 0 < a < rows && curve.At(a - 1, x, y) != curve.At(a, x, y)
    ensures forall row: nat, cell :: Passed(curve, rows, x, y, a + 1, curve.At(a, x, y), row, cell)
              <==> Passed(curve, rows, x, y, a, curve.At(a, x, y), row, cell)
  {
  }

  lemma AllPassed(t: Table, t': Table, curve: Curve, x: int, y: int, a: nat, upto: int, weight: int)
    requires a >= 1 && a >= |t| && Progress(t, t', curve, x, y, a, upto, weight)
    ensures Cast(t, t', curve, x, y, weight)
  {
    assert forall row: nat, cell ::
        Passed(curve, |t|, x, y, a, upto, row, cell) <==> OnCurve(curve, |t|, x, y, row, cell);
    hide Passed, OnCurve;
  }

  lemma AllLed(t: Table, curve: Curve, x: int, y: int, a: nat, upto: int, maxVal: int, peak: Peak)
    requires a >= 1 && a >= |t| && Leading(t, curve, x, y, a, upto, maxVal, peak)
    ensures IsPeak(t, curve, x, y, peak)
  {
    assert forall row: nat, cell ::
        Passed(curve, |t|, x, y, a, upto, row, cell) <==> OnCurve(curve, |t|, x, y, row, cell);
    hide Passed, OnCurve;
  }

  // ----- whole runs -----

  /** Every cell holds its tally. */
  ghost predicate Tallied(t: Table, run: seq<Call>, curve: Curve, dx: int, dy: int) {
    forall row: nat, cell :: Votes(t, row, cell) == Tally(run, curve, |t|, dx, dy, row, cell)
  }

  lemma TallyGrows(t: Table, t': Table, curve: Curve, dx: int, dy: int, run: seq<Call>, call: Call)
    requires Tallied(t, run, curve, dx, dy) && Inside(call.p, dx, dy)
    requires Cast(t, t', curve, call.p.x, call.p.y, if call.Add? then 1 else -1)
    ensures |t'| == |t| && Tallied(t', run + [call], curve, dx, dy)
    ensures Points(run + [call], dx, dy) == Points(run, dx, dy) + if call.Add? then 1 else -1
  {
    hide Votes, OnCurve;
    assert (run + [call])[..|run|] == run;
  }
}
