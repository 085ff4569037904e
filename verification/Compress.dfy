/** Zero suppression of waveforms: the plain algorithm recomputes a window's spread at
    every sample, the fast one updates it.  Both are proved against one specification,
    over exact reals. */
module Compress {

  datatype Params = Params(varSamples: int, ante: int, post: int, varCut: real)

  /** A recorded piece of a waveform. */
  datatype Piece = Piece(time: int, samples: seq<int>)

  /** `OutOfRange` is the exception of a checked element access. */
  datatype Result = Pieces(pieces: seq<Piece>) | OutOfRange

  // ----- the specification -----

  function Total(s: seq<int>): real
  {
    if s == [] then 0.0 else Total(s[..|s| - 1]) + s[|s| - 1] as real
  }

  function Square(x: real): real { x * x }

  function Times(n: int, x: real): real { n as real * x }

  /** Sum of squared distances from `m`. */
  function Deviation(s: seq<int>, m: real): real
  {
    if s == [] then 0.0 else Deviation(s[..|s| - 1], m) + Square(s[|s| - 1] as real - m)
  }

  function Mean(s: seq<int>): real
    requires s != []
  {
    Total(s) / |s| as real
  }

  /** Sum of squared distances from the mean. */
  function Spread(s: seq<int>): real
    requires s != []
  {
    Deviation(s, Mean(s))
  }

  /** The last `n` samples up to and including index `i`. */
  function Recent(wf: seq<int>, n: nat, i: nat): seq<int>
    requires 0 < n <= i < |wf|
  {
    wf[i - n + 1..i + 1]
  }

  predicate Exceeds(wf: seq<int>, p: Params, i: nat)
    requires 0 < p.varSamples <= i < |wf|
  {
    Spread(Recent(wf, p.varSamples, i)) > p.varCut
  }

  /** `make_new_wf`: a range cut to the waveform; a negative end counts as too large,
      because it is compared with an unsigned size. */
  function Cut(wf: seq<int>, start: int, end: int): Piece
  {
    var first := if start < 0 then 0 else start;
    var last := if end < 0 || end > |wf| then |wf| else end;
    Piece(first, if first <= last then wf[first..last] else [])
  }

  /** The indices that start a piece, from index `i` on, when everything up to `recorded`
      is recorded already. */
  function Triggers(wf: seq<int>, p: Params, i: nat, recorded: int): seq<int>
    requires 0 < p.varSamples
    decreases |wf| - i
  {
    if i >= |wf| then []
    else if i >= p.varSamples && Exceeds(wf, p, i) && i > recorded then
      [i] + Triggers(wf, p, i + 1, i + p.post)
    else Triggers(wf, p, i + 1, recorded)
  }

  function PiecesAt(wf: seq<int>, p: Params, triggers: seq<int>): seq<Piece>
  {
    seq(|triggers|, k requires 0 <= k < |triggers| => Cut(wf, triggers[k] - p.ante, triggers[k] + p.post))
  }

  function Compressed(wf: seq<int>, p: Params): Result
  {
    if |wf| < 2 || p.varSamples <= 0 then OutOfRange
    else Pieces(PiecesAt(wf, p, Triggers(wf, p, 0, 0)))
  }

  // ----- moving the window -----

  function Squares(s: seq<int>): real
  {
    if s == [] then 0.0 else Squares(s[..|s| - 1]) + Square(s[|s| - 1] as real)
  }

  lemma {:induction false} Expand(s: seq<int>, m: real)
    ensures Deviation(s, m) == Squares(s) - 2.0 * m * Total(s) + |s| as real * (m * m)
  {
    if s != [] {
      var rest, x := s[..|s| - 1], s[|s| - 1] as real;
      Expand(rest, m);
      hide Square;
      assert 2.0 * m * Total(s) == 2.0 * m * Total(rest) + 2.0 * m * x;
      assert |s| as real * (m * m) == |rest| as real * (m * m) + m * m;
    }
  }

  lemma MeanTotal(s: seq<int>)
    requires s != []
    ensures Total(s) == |s| as real * Mean(s)
  {
    hide Total;
  }

  /** The spread from any other centre. */
  lemma ShiftCentre(s: seq<int>, m: real)
    requires s != []
    ensures Spread(s) == Deviation(s, m) - Times(|s|, Square(Mean(s) - m))
  {
    hide Deviation, Total, Squares, Square, Mean;
    Expand(s, m);
    Expand(s, Mean(s));
    MeanTotal(s);
    ShiftAlgebra(Squares(s), |s| as real, Mean(s), m);
  }

  lemma ShiftAlgebra(squares: real, n: real, c: real, m: real)
    ensures squares - 2.0 * c * (n * c) + n * (c * c) ==
            squares - 2.0 * m * (n * c) + n * (m * m) - n * Square(c - m)
  {
    assert n * Square(c - m) == n * (c * c) - 2.0 * (n * (c * m)) + n * (m * m);
    assert c * (n * c) == n * (c * c) && m * (n * c) == n * (c * m);
  }

  lemma {:induction false} DropFirst(s: seq<int>, m: real)
    requires s != []
    ensures Total(s[1..]) == Total(s) - s[0] as real
    ensures Deviation(s[1..], m) == Deviation(s, m) - Square(s[0] as real - m)
  {
    if |s| == 1 {
      assert s[..0] == [] && s[1..] == [];
    } else {
      DropFirst(s[..|s| - 1], m);
      assert s[..|s| - 1][1..] == s[1..][..|s| - 2];
    }
  }

  lemma AddLast(s: seq<int>, x: int, m: real)
    ensures Total(s + [x]) == Total(s) + x as real
    ensures Deviation(s + [x], m) == Deviation(s, m) + Square(x as real - m)
  {
    assert (s + [x])[..|s|] == s;
  }

  /** The update of the fast algorithm is exact. */
  lemma SlideSpread(s: seq<int>, x: int)
    requires s != []
    ensures var s' := s[1..] + [x];
            var shift := Mean(s') - Mean(s);
            && Total(s') == Total(s) - s[0] as real + x as real
            && Spread(s') == Spread(s) - Square(s[0] as real - Mean(s)) + Square(x as real - Mean(s))
                             - Times(|s|, Square(shift))
  {
    hide Square, Mean, Deviation, Total, Times;
    var s' := s[1..] + [x];
    assert |s'| == |s|;
    DropFirst(s, Mean(s));
    AddLast(s[1..], x, Mean(s));
    ShiftCentre(s', Mean(s));
  }

  // ----- the programs -----

  method Squared(lastFew: seq<int>, baseline: real) returns (variance: real)
    ensures variance == Deviation(lastFew, baseline)
  {
    variance := 0.0;
    for i := 0 to |lastFew|
      invariant variance == Deviation(lastFew[..i], baseline)
    {
      assert lastFew[..i + 1][..i] == lastFew[..i];
      variance := variance + Square(lastFew[i] as real - baseline);
    }
    assert lastFew[..|lastFew|] == lastFew;
  }

  /** What is in the queue before index `i`. */
  function Queue(wf: seq<int>, n: nat, i: nat): seq<int>
    requires i <= |wf|
  {
    if i <= n then wf[..i] else wf[i - n..i]
  }

  lemma QueueFills(wf: seq<int>, n: nat, i: nat)
    requires i < n && i < |wf|
    ensures Queue(wf, n, i + 1) == Queue(wf, n, i) + [wf[i]]
    ensures Total(Queue(wf, n, i + 1)) == Total(Queue(wf, n, i)) + wf[i] as real
  {
    AddLast(Queue(wf, n, i), wf[i], 0.0);
    assert wf[..i + 1] == wf[..i] + [wf[i]];
  }

  lemma QueueMoves(wf: seq<int>, n: nat, i: nat)
    requires 0 < n <= i < |wf|
    ensures var q := Queue(wf, n, i);
            && |q| == n && Queue(wf, n, i + 1) == q[1..] + [wf[i]] == Recent(wf, n, i)
            && Total(Queue(wf, n, i + 1)) == Total(q) - q[0] as real + wf[i] as real
  {
    SlideSpread(Queue(wf, n, i), wf[i]);
  }

  /** The pieces so far with those still to come. */
  function Goal(wf: seq<int>, p: Params, i: nat, recorded: int, pieces: seq<Piece>): seq<Piece>
    requires 0 < p.varSamples
  {
    pieces + PiecesAt(wf, p, Triggers(wf, p, i, recorded))
  }

  lemma TriggerStep(wf: seq<int>, p: Params, i: nat, recorded: int, pieces: seq<Piece>)
    requires 0 < p.varSamples <= i < |wf|
    ensures var hit := Exceeds(wf, p, i) && i > recorded;
            var pieces' := if hit then pieces + [Cut(wf, i - p.ante, i + p.post)] else pieces;
            var recorded' := if hit then i + p.post else recorded;
            Goal(wf, p, i, recorded, pieces) == Goal(wf, p, i + 1, recorded', pieces')
  {
    hide Exceeds, Cut;
  }

  lemma Start(wf: seq<int>, p: Params)
    requires |wf| >= 2 && p.varSamples > 0
    ensures Queue(wf, p.varSamples, 0) == [] && Total([]) == 0.0
    ensures Compressed(wf, p) == Pieces(Goal(wf, p, 0, 0, []))
  {
    hide Triggers;
    assert [] + PiecesAt(wf, p, Triggers(wf, p, 0, 0)) == PiecesAt(wf, p, Triggers(wf, p, 0, 0));
  }

  lemma Finish(wf: seq<int>, p: Params, recorded: int, pieces: seq<Piece>)
    requires p.varSamples > 0
    ensures Goal(wf, p, |wf|, recorded, pieces) == pieces
  {
  }

  lemma WarmUp(wf: seq<int>, p: Params, i: nat, recorded: int, pieces: seq<Piece>)
    requires 0 < p.varSamples && i < p.varSamples && i < |wf|
    ensures Goal(wf, p, i, recorded, pieces) == Goal(wf, p, i + 1, recorded, pieces)
  {
    hide Exceeds;
  }

  lemma ExceedsIs(wf: seq<int>, p: Params, i: nat, variance: real)
    requires 0 < p.varSamples <= i < |wf|
    requires variance == Spread(Queue(wf, p.varSamples, i + 1))
    ensures Exceeds(wf, p, i) <==> variance > p.varCut
  {
    hide Deviation;
  }

  /** Record a piece when the spread passes the cut beyond what is recorded. */
  method Record(wf: seq<int>, p: Params, i: nat, variance: real, recorded: int, pieces: seq<Piece>)
    returns (hit: bool, recorded': int, pieces': seq<Piece>)
    requires 0 < p.varSamples <= i < |wf| && variance == Spread(Queue(wf, p.varSamples, i + 1))
    ensures Goal(wf, p, i, recorded, pieces) == Goal(wf, p, i + 1, recorded', pieces')
  {
    hide Exceeds, Cut, Goal, Triggers, Spread, Queue;
    TriggerStep(wf, p, i, recorded, pieces);
    ExceedsIs(wf, p, i, variance);
    hit, recorded', pieces' := false, recorded, pieces;
    if variance > p.varCut && i > recorded {
      hit := true;
      pieces' := pieces + [Cut(wf, i - p.ante, i + p.post)];
      recorded' := i + p.post;
    }
  }

  /** One sample of the plain algorithm once the queue is full. */
  method Recompute(queue: seq<int>, total: real, adcs: int)
    returns (lastFew: seq<int>, baselineTot: real, variance: real)
    requires queue != [] && total == Total(queue)
    ensures lastFew == queue[1..] + [adcs]
    ensures baselineTot == Total(lastFew) && variance == Spread(lastFew)
  {
    SlideSpread(queue, adcs);
    baselineTot := total - queue[0] as real;
    lastFew := queue[1..];
    baselineTot := baselineTot + adcs as real;
    lastFew := lastFew + [adcs];
    var baseline := baselineTot / |queue| as real;
    variance := Squared(lastFew, baseline);
  }

  /** `Compress`: the spread is recomputed for every sample. */
  method Plain(wf: seq<int>, p: Params) returns (r: Result)
    requires |wf| <= 0xffff
    ensures r == Compressed(wf, p)
  {
    if |wf| < 2 || p.varSamples <= 0 {
      return OutOfRange;
    }
    var n := p.varSamples;
    var lastFew: seq<int> := [];
    var baselineTot, variance := 0.0, 0.0;
    var recorded := 0;
    var pieces := [];
    Start(wf, p);
    hide Exceeds, Total, Goal, Cut, Deviation, Triggers, Compressed, Queue, Spread;
    for i := 0 to |wf|
      invariant lastFew == Queue(wf, n, i) && |lastFew| == (if i <= n then i else n) && baselineTot == Total(lastFew)
      invariant Goal(wf, p, 0, 0, []) == Goal(wf, p, i, recorded, pieces)
    {
      if i < n {
        QueueFills(wf, n, i);
        WarmUp(wf, p, i, recorded, pieces);
        lastFew := lastFew + [wf[i]];
        baselineTot := baselineTot + wf[i] as real;
      } else {
        QueueMoves(wf, n, i);
        lastFew, baselineTot, variance := Recompute(lastFew, baselineTot, wf[i]);
        var hit;
        hit, recorded, pieces := Record(wf, p, i, variance, recorded, pieces);
      }
    }
    Finish(wf, p, recorded, pieces);
    r := Pieces(pieces);
  }

  /** One sample of the fast algorithm once the queue is full. */
  method Slide(queue: seq<int>, total: real, mean: real, spread: real, adcs: int)
    returns (lastFew: seq<int>, baselineTot: real, baseline: real, variance: real)
    requires queue != [] && total == Total(queue) && mean == Mean(queue)
    requires spread == 0.0 || spread == Spread(queue)
    ensures lastFew == queue[1..] + [adcs]
    ensures baselineTot == Total(lastFew) && baseline == Mean(lastFew) && variance == Spread(lastFew)
  {
    SlideSpread(queue, adcs);
    var n := |queue|;
    var oldPoint := queue[0] as real;
    baselineTot := total - oldPoint;
    lastFew := queue[1..];
    baselineTot := baselineTot + adcs as real;
    lastFew := lastFew + [adcs];
    baseline := baselineTot / n as real;
    var delBase := baseline - mean;
    if spread == 0.0 {
      variance := Squared(lastFew, baseline);
    } else {
      variance := spread - Square(oldPoint - mean);
      variance := variance + Square(adcs as real - mean);
      variance := variance - Times(n, Square(delBase));
    }
  }

  /** `VarianceCompress`: the spread is updated, and recomputed after it was reset. */
  method Fast(wf: seq<int>, p: Params) returns (r: Result)
    requires |wf| <= 0xffff
    ensures r == Compressed(wf, p)
  {
    if |wf| < 2 || p.varSamples <= 0 {
      return OutOfRange;
    }
    var n := p.varSamples;
    var lastFew: seq<int> := [];
    var baselineTot, baseline, variance := 0.0, wf[1] as real, 0.0;
    var recorded := 0;
    var pieces := [];
    Start(wf, p);
    hide Exceeds, Total, Goal, Cut, Deviation, Triggers, Compressed, Queue;
    for i := 0 to |wf|
      invariant lastFew == Queue(wf, n, i) && |lastFew| == (if i <= n then i else n) && baselineTot == Total(lastFew)
      invariant i >= n ==> baseline == Mean(lastFew)
      invariant variance == 0.0 || (i > n && variance == Spread(lastFew))
      invariant Goal(wf, p, 0, 0, []) == Goal(wf, p, i, recorded, pieces)
    {
      if i < n {
        QueueFills(wf, n, i);
        WarmUp(wf, p, i, recorded, pieces);
        lastFew := lastFew + [wf[i]];
        baselineTot := baselineTot + wf[i] as real;
        baseline := baselineTot / n as real;
      } else {
        QueueMoves(wf, n, i);
        lastFew, baselineTot, baseline, variance := Slide(lastFew, baselineTot, baseline, variance, wf[i]);
        var hit;
        hit, recorded, pieces := Record(wf, p, i, variance, recorded, pieces);
        if hit {
          variance := 0.0;
        }
      }
    }
    Finish(wf, p, recorded, pieces);
    r := Pieces(pieces);
  }
}
