/** What a whole run of adding and subtracting points leaves in the accumulator. */
module HoughRuns {
  import opened Hough

  function Without(run: seq<Call>, i: nat): seq<Call>
    requires i < |run|
  {
    run[..i] + run[i + 1..]
  }

  lemma {:induction false} TallyWithout(run: seq<Call>, i: nat, curve: Curve, rows: nat, dx: int, dy: int,
                                        row: nat, cell: int)
    requires i < |run|
    ensures Tally(run, curve, rows, dx, dy, row, cell)
         == Tally(Without(run, i), curve, rows, dx, dy, row, cell) + Effect(run[i], curve, rows, dx, dy, row, cell)
    ensures Points(run, dx, dy) == Points(Without(run, i), dx, dy) + Points([run[i]], dx, dy)
  {
    hide Effect;
    var n := |run| - 1;
    var rest := Without(run, i);
    assert [run[i]][..0] == [];
    if i == n {
      assert rest == run[..n];
    } else {
      assert rest[..n - 1] == Without(run[..n], i) && rest[n - 1] == run[n];
      TallyWithout(run[..n], i, curve, rows, dx, dy, row, cell);
    }
  }

  lemma WithoutCalls(run: seq<Call>, i: nat)
    requires i < |run|
    ensures multiset(Without(run, i)) == multiset(run) - multiset{run[i]}
  {
    assert run == run[..i] + [run[i]] + run[i + 1..];
  }

  /** Only which calls were made counts, not their order. */
  lemma {:induction false} OrderFree(run: seq<Call>, other: seq<Call>, curve: Curve, rows: nat, dx: int,
                                     dy: int, row: nat, cell: int)
    requires multiset(run) == multiset(other)
    ensures Tally(run, curve, rows, dx, dy, row, cell) == Tally(other, curve, rows, dx, dy, row, cell)
    ensures Points(run, dx, dy) == Points(other, dx, dy)
    decreases |run|
  {
    hide Tally, Points, Effect;
    if run == [] {
      assert |multiset(run)| == 0 && |multiset(other)| == |other|;
    } else {
      assert run[0] in multiset(other);
      var i :| 0 <= i < |other| && other[i] == run[0];
      TallyWithout(run, 0, curve, rows, dx, dy, row, cell);
      TallyWithout(other, i, curve, rows, dx, dy, row, cell);
      WithoutCalls(run, 0);
      WithoutCalls(other, i);
      OrderFree(Without(run, 0), Without(other, i), curve, rows, dx, dy, row, cell);
    }
  }

  /** Subtracting a point undoes adding it, whatever was done in between. */
  lemma Undo(before: seq<Call>, between: seq<Call>, p: Point, curve: Curve, rows: nat, dx: int, dy: int,
             row: nat, cell: int)
    ensures var run := before + [Add(p)] + between + [Subtract(p)];
            && Tally(run, curve, rows, dx, dy, row, cell) == Tally(before + between, curve, rows, dx, dy, row, cell)
            && Points(run, dx, dy) == Points(before + between, dx, dy)
  {
    hide Tally;
    var run := before + [Add(p)] + between + [Subtract(p)];
    var once := before + [Add(p)] + between;
    TallyWithout(run, |run| - 1, curve, rows, dx, dy, row, cell);
    assert Without(run, |run| - 1) == once;
    TallyWithout(once, |before|, curve, rows, dx, dy, row, cell);
    assert Without(once, |before|) == before + between;
    assert [Add(p)][..0] == [] && [Subtract(p)][..0] == [];
  }

  /** No point is taken out more often than it was put in. */
  ghost predicate Balanced(run: seq<Call>) {
    forall p :: multiset(run)[Subtract(p)] <= multiset(run)[Add(p)]
  }

  lemma {:induction false} AddsOnly(run: seq<Call>, curve: Curve, rows: nat, dx: int, dy: int, row: nat, cell: int)
    requires forall i :: 0 <= i < |run| ==> run[i].Add?
    ensures 0 <= Tally(run, curve, rows, dx, dy, row, cell) <= Points(run, dx, dy)
    ensures Tally(run, curve, rows, dx, dy, row, cell) == Points(run, dx, dy) <==>
            forall i :: 0 <= i < |run| && Inside(run[i].p, dx, dy) ==>
              OnCurve(curve, rows, run[i].p.x, run[i].p.y, row, cell)
  {
    hide OnCurve;
    if run != [] {
      var n := |run| - 1;
      AddsOnly(run[..n], curve, rows, dx, dy, row, cell);
      assert forall i :: 0 <= i < n ==> run[..n][i] == run[i];
    }
  }

  /** Taking out one subtraction together with an addition of the same point. */
  lemma RemovePair(run: seq<Call>, i: nat) returns (rest: seq<Call>, j: nat)
    requires Balanced(run) && i < |run| && run[i].Subtract?
    ensures rest == Without(run, i) && j < |rest| && rest[j] == Add(run[i].p)
    ensures Balanced(Without(rest, j))
  {
    var p := run[i].p;
    rest := Without(run, i);
    WithoutCalls(run, i);
    assert run[i] in multiset(run);
    assert multiset(run)[Subtract(p)] <= multiset(run)[Add(p)];
    assert Add(p) in multiset(rest);
    j :| 0 <= j < |rest| && rest[j] == Add(p);
    WithoutCalls(rest, j);
    var less := multiset(Without(rest, j));
    forall q
      ensures less[Subtract(q)] <= less[Add(q)]
    {
      assert multiset(run)[Subtract(q)] <= multiset(run)[Add(q)];
    }
  }

  /** In a balanced run no cell is ever negative or holds more votes than there are points. */
  lemma {:induction false} VotesBounded(run: seq<Call>, curve: Curve, rows: nat, dx: int, dy: int, row: nat, cell: int)
    requires Balanced(run)
    ensures 0 <= Tally(run, curve, rows, dx, dy, row, cell) <= Points(run, dx, dy)
    decreases |run|
  {
    hide Tally, Points, Effect, Balanced;
    if i :| 0 <= i < |run| && run[i].Subtract? {
      var rest, j := RemovePair(run, i);
      TallyWithout(run, i, curve, rows, dx, dy, row, cell);
      TallyWithout(rest, j, curve, rows, dx, dy, row, cell);
      Opposite(run[i].p, curve, rows, dx, dy, row, cell);
      VotesBounded(Without(rest, j), curve, rows, dx, dy, row, cell);
    } else {
      AddsOnly(run, curve, rows, dx, dy, row, cell);
    }
  }

  lemma Opposite(p: Point, curve: Curve, rows: nat, dx: int, dy: int, row: nat, cell: int)
    ensures Effect(Add(p), curve, rows, dx, dy, row, cell) + Effect(Subtract(p), curve, rows, dx, dy, row, cell) == 0
    ensures Points([Add(p)], dx, dy) + Points([Subtract(p)], dx, dy) == 0
  {
    assert [Add(p)][..0] == [] && [Subtract(p)][..0] == [];
  }

  /** In every row a point votes for one unbroken stretch of cells, as many as its distance
      moved but at least one; the stretch starts where the previous row left off. */
  lemma UnbrokenVotes(curve: Curve, rows: nat, x: int, y: int, row: nat)
    requires 0 < row < rows
    ensures var last, dist := curve.At(row - 1, x, y), curve.At(row, x, y);
            var moved := if dist > last then dist - last else last - dist;
            var count := if moved == 0 then 1 else moved;
            var first := if dist < last then dist + 1 else last;
            && (forall cell :: OnCurve(curve, rows, x, y, row, cell) <==> first <= cell < first + count)
            && OnCurve(curve, rows, x, y, row, last)
            && exists cell :: OnCurve(curve, rows, x, y, row, cell) && -1 <= cell - dist <= 1
  {
    var last, dist := curve.At(row - 1, x, y), curve.At(row, x, y);
    var end := if dist > last then dist - 1 else if dist < last then dist + 1 else dist;
    assert OnCurve(curve, rows, x, y, row, end);
  }

  /** `cell` is the middle of a row of that length, the fraction dropped, moved by `offset`. */
  predicate InTheMiddle(cell: int, offset: int, length: int) {
    2 * (cell - offset) == if length % 2 == 0 then length else if length > 0 then length - 1 else length + 1
  }

  /** In the first row that gets votes the stretch starts at the middle plus the scaled `x`. */
  lemma FirstRow(far: (nat, int, int) -> int, length: int, scale: int, rows: nat, x: int, y: int, start: int)
    requires rows >= 2 && InTheMiddle(start, scale * x, length)
    ensures forall cell :: OnCurve(Curve(far, Half(length), scale), rows, x, y, 1, cell) <==>
              if start == far(1, x, y) then cell == start
              else start <= cell < far(1, x, y) || far(1, x, y) < cell <= start
    ensures OnCurve(Curve(far, Half(length), scale), rows, x, y, 1, start)
  {
  }

  /** A new accumulator and one point: the votes of row 1, from the field and the scale. */
  method OneVote(far: (nat, int, int) -> int, dx: int, dy: int, rhores: int, rows: nat, x: int, y: int)
    returns (h: HoughTransform)
    requires rows >= 2 && 0 <= x <= dx && 0 <= y <= dy
    ensures IsRowLength(h.rowLength, dx, dy, rhores)
    ensures exists start ::
              && InTheMiddle(start, rhores * x, h.rowLength)
              && Votes(h.accum, 1, start) == 1
              && forall cell :: Votes(h.accum, 1, cell) ==
                   if (if start == far(1, x, y) then cell == start
                       else start <= cell < far(1, x, y) || far(1, x, y) < cell <= start) then 1 else 0
  {
    hide Votes, OnCurve, IsPeak, Diagonal, IsRowLength, Inside;
    h := new HoughTransform(far);
    h.Init(dx, dy, rhores, rows);
    RowLengthIs(dx, dy, rhores);
    assert Inside(Point(x, y), dx, dy) by { InsideIs(x, y, dx, dy); }
    var _ := h.AddPointReturnMax(x, y);
    var start := Half(h.rowLength) + rhores * x;
    FirstRow(far, h.rowLength, rhores, rows, x, y, start);
  }

  lemma InsideIs(x: int, y: int, dx: int, dy: int)
    ensures Inside(Point(x, y), dx, dy) <==> 0 <= x <= dx && 0 <= y <= dy
  {
  }

  /** The peak is determined: no two results are possible. */
  lemma OnePeak(t: Table, curve: Curve, x: int, y: int, peak: Peak, other: Peak)
    requires IsPeak(t, curve, x, y, peak) && IsPeak(t, curve, x, y, other)
    ensures peak == other
  {
    if peak.val > 0 && other.val > 0 {
      assert peak.val == other.val;
    }
  }

  /** Any run of calls on the object ends with every cell at its tally. */
  method Replay(h: HoughTransform, calls: seq<Call>)
    requires h.Valid() && h.run == []
    modifies h`accum, h`numAccumulated, h`run
    ensures h.Valid() && h.run == calls
    ensures h.numAccumulated == Points(calls, h.dx, h.dy)
    ensures forall row: nat, cell ::
              Votes(h.accum, row, cell) == Tally(calls, h.Line(), h.numAngleCells, h.dx, h.dy, row, cell)
  {
    var i := 0;
    while i < |calls|
      invariant 0 <= i <= |calls| && h.Valid() && h.run == calls[..i]
    {
      match calls[i] {
        case Add(p) => var _ := h.AddPointReturnMax(p.x, p.y);
        case Subtract(p) => var _ := h.SubtractPoint(p.x, p.y);
      }
      i := i + 1;
    }
    assert calls[..i] == calls;
  }
}
