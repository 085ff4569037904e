/** Which samples the zero suppression keeps. */
module CompressWindows {
  import opened Compress

  /** Both algorithms on one waveform. */
  method Both(wf: seq<int>, p: Params) returns (plain: Result, fast: Result)
    requires |wf| <= 0xffff
    ensures plain == fast
    ensures |wf| >= 2 && p.varSamples > 0 ==> plain.Pieces?
  {
    plain := Plain(wf, p);
    fast := Fast(wf, p);
  }

  predicate Suppressed(triggers: seq<int>, post: int, x: int) {
    exists k :: 0 <= k < |triggers| && triggers[k] < x <= triggers[k] + post
  }

  /** Triggers are above the cut, in order, and each lies beyond what the one before
      recorded. */
  lemma {:induction false} TriggersSpaced(wf: seq<int>, p: Params, i: nat, recorded: int)
    requires 0 < p.varSamples
    ensures var ts := Triggers(wf, p, i, recorded);
            && (forall k :: 0 <= k < |ts| ==> i <= ts[k] < |wf| && p.varSamples <= ts[k] && Exceeds(wf, p, ts[k]))
            && (ts != [] ==> ts[0] > recorded)
            && (forall k :: 0 < k < |ts| ==> ts[k - 1] < ts[k] && ts[k - 1] + p.post < ts[k])
    decreases |wf| - i
  {
    hide Exceeds;
    if i < |wf| {
      if i >= p.varSamples && Exceeds(wf, p, i) && i > recorded {
        TriggersSpaced(wf, p, i + 1, i + p.post);
        var rest := Triggers(wf, p, i + 1, i + p.post);
        assert Triggers(wf, p, i, recorded) == [i] + rest;
      } else {
        TriggersSpaced(wf, p, i + 1, recorded);
      }
    }
  }

  lemma SuppressedCons(t: int, rest: seq<int>, post: int, x: int)
    ensures Suppressed([t] + rest, post, x) <==> t < x <= t + post || Suppressed(rest, post, x)
  {
    var ts := [t] + rest;
    if t < x <= t + post {
      assert ts[0] < x <= ts[0] + post;
    }
    if Suppressed(rest, post, x) {
      var k :| 0 <= k < |rest| && rest[k] < x <= rest[k] + post;
      assert ts[k + 1] < x <= ts[k + 1] + post;
    }
  }

  /** Exactly the indices above the cut that no earlier trigger suppresses are triggers. */
  lemma {:induction false} TriggersExactly(wf: seq<int>, p: Params, i: nat, recorded: int, x: nat)
    requires 0 < p.varSamples <= x && i <= x < |wf|
    ensures var ts := Triggers(wf, p, i, recorded);
            x in ts <==>
            Exceeds(wf, p, x) && (x > recorded || exists t :: t in ts && t < x) && !Suppressed(ts, p.post, x)
    decreases |wf| - i
  {
    hide Exceeds, Suppressed;
    var ts := Triggers(wf, p, i, recorded);
    if i >= p.varSamples && Exceeds(wf, p, i) && i > recorded {
      var rest := Triggers(wf, p, i + 1, i + p.post);
      assert ts == [i] + rest && ts[0] == i;
      TriggersSpaced(wf, p, i + 1, i + p.post);
      if x == i {
        FirstNotSuppressed(ts, p.post, x);
      } else {
        TriggersExactly(wf, p, i + 1, i + p.post, x);
        SuppressedCons(i, rest, p.post, x);
        if x <= i + p.post && exists t :: t in rest && t < x {
          FirstIsLeast(rest);
        }
      }
    } else if x > i {
      TriggersExactly(wf, p, i + 1, recorded, x);
    } else {
      var later := Triggers(wf, p, i + 1, recorded);
      TriggersSpaced(wf, p, i + 1, recorded);
      assert forall t :: t in later ==> t > i;
    }
  }

  /** A trigger is not suppressed by itself or a later one. */
  lemma FirstNotSuppressed(ts: seq<int>, post: int, x: int)
    requires forall t :: t in ts ==> x <= t
    ensures !Suppressed(ts, post, x)
  {
    forall k | 0 <= k < |ts|
      ensures x <= ts[k]
    {
      assert ts[k] in ts;
    }
  }

  lemma {:induction false} FirstIsLeast(ts: seq<int>)
    requires forall k :: 0 < k < |ts| ==> ts[k - 1] < ts[k]
    ensures forall k :: 0 <= k < |ts| ==> ts[0] <= ts[k]
  {
    if |ts| > 1 {
      FirstIsLeast(ts[1..]);
      forall k | 0 <= k < |ts|
        ensures ts[0] <= ts[k]
      {
        if k > 0 {
          assert ts[k] == ts[1..][k - 1] && ts[1..][0] == ts[1];
        }
      }
    }
  }

  /** A piece runs from `ante` samples before its trigger to `post` after it, exclusive,
      within the waveform. */
  lemma PieceShape(wf: seq<int>, p: Params, t: nat)
    requires t < |wf| && p.ante >= 0 && p.post >= 0
    ensures var piece := Cut(wf, t - p.ante, t + p.post);
            var end := if t + p.post > |wf| then |wf| else t + p.post;
            0 <= piece.time <= end && piece.samples == wf[piece.time..end]
            && piece.time == if t < p.ante then 0 else t - p.ante
  {
  }

  /** Consecutive pieces start in order and share at most `ante - 1` samples. */
  lemma PiecesOverlap(wf: seq<int>, p: Params, k: nat)
    requires 0 < p.varSamples && p.ante >= 0 && p.post >= 0
    requires k + 1 < |Triggers(wf, p, 0, 0)|
    ensures var ts := Triggers(wf, p, 0, 0);
            var a, b := PiecesAt(wf, p, ts)[k], PiecesAt(wf, p, ts)[k + 1];
            a.time <= b.time && a.time + |a.samples| - b.time <= (if p.ante > 0 then p.ante - 1 else 0)
  {
    hide Exceeds;
    TriggersSpaced(wf, p, 0, 0);
    var ts := Triggers(wf, p, 0, 0);
    PieceShape(wf, p, ts[k]);
    PieceShape(wf, p, ts[k + 1]);
  }

  /** Sample `x` is in the piece of some trigger. */
  ghost predicate Kept(ts: seq<int>, p: Params, x: int) {
    exists k :: 0 <= k < |ts| && ts[k] - p.ante <= x < ts[k] + p.post
  }

  lemma {:induction false} Ordered(ts: seq<int>, post: int, j: nat, k: nat)
    requires post >= 0 && j < k < |ts|
    requires forall i :: 0 < i < |ts| ==> ts[i - 1] + post < ts[i]
    ensures ts[j] + post < ts[k]
  {
    if j + 1 < k {
      Ordered(ts, post, j, k - 1);
    }
  }

  /** Some trigger is at or before every index above the cut, within reach. */
  lemma Covered(wf: seq<int>, p: Params, x: nat) returns (k: nat)
    requires 0 < p.varSamples <= x < |wf| && p.post >= 0 && Exceeds(wf, p, x)
    ensures var ts := Triggers(wf, p, 0, 0); k < |ts| && ts[k] <= x <= ts[k] + p.post
  {
    hide Exceeds, Triggers;
    var ts := Triggers(wf, p, 0, 0);
    TriggersExactly(wf, p, 0, 0, x);
    if x in ts {
      k :| 0 <= k < |ts| && ts[k] == x;
    } else {
      k :| 0 <= k < |ts| && ts[k] < x <= ts[k] + p.post;
    }
  }

  /** Some piece holds the sample at index `x`. */
  ghost predicate Recorded(pieces: seq<Piece>, wf: seq<int>, x: int)
    requires 0 <= x < |wf|
  {
    exists k :: 0 <= k < |pieces| && Holds(pieces[k], wf, x)
  }

  predicate Holds(piece: Piece, wf: seq<int>, x: int)
    requires 0 <= x < |wf|
  {
    piece.time <= x < piece.time + |piece.samples| && piece.samples[x - piece.time] == wf[x]
  }

  lemma PieceHolds(wf: seq<int>, p: Params, t: nat, x: nat)
    requires t < |wf| && x < |wf| && p.ante >= 0 && p.post >= 0
    ensures Holds(Cut(wf, t - p.ante, t + p.post), wf, x) <==> t - p.ante <= x < t + p.post
  {
    PieceShape(wf, p, t);
  }

  lemma RecordedIsKept(wf: seq<int>, p: Params, x: nat)
    requires 0 < p.varSamples <= x < |wf| && p.ante >= 0 && p.post >= 0
    ensures Compressed(wf, p).Pieces?
    ensures Recorded(Compressed(wf, p).pieces, wf, x) <==> Kept(Triggers(wf, p, 0, 0), p, x)
  {
    hide Triggers, Cut, Holds, Exceeds;
    var ts := Triggers(wf, p, 0, 0);
    var pieces := Compressed(wf, p).pieces;
    TriggersSpaced(wf, p, 0, 0);
    forall k | 0 <= k < |ts|
      ensures Holds(pieces[k], wf, x) <==> ts[k] - p.ante <= x < ts[k] + p.post
    {
      PieceHolds(wf, p, ts[k], x);
    }
  }

  /** An index above the cut is recorded unless it is the first one behind the reach of some
      trigger and no later index above the cut is near enough to reach back to it: the
      suppressed range is one longer than the recorded one. */
  lemma KeptExactly(wf: seq<int>, p: Params, x: nat)
    requires 0 < p.varSamples <= x < |wf| && p.ante >= 0 && p.post >= 0 && Exceeds(wf, p, x)
    ensures Compressed(wf, p).Pieces?
    ensures var ts := Triggers(wf, p, 0, 0);
            Recorded(Compressed(wf, p).pieces, wf, x) <==>
            (forall k :: 0 <= k < |ts| ==> ts[k] + p.post != x)
            || (exists y :: x < y <= x + p.ante && y < |wf| && Exceeds(wf, p, y))
  {
    hide Exceeds, Triggers, Compressed, Recorded;
    RecordedIsKept(wf, p, x);
    var ts := Triggers(wf, p, 0, 0);
    var c := Covered(wf, p, x);
    if forall k :: 0 <= k < |ts| ==> ts[k] + p.post != x {
      assert ts[c] - p.ante <= x < ts[c] + p.post;
    } else {
      var k :| 0 <= k < |ts| && ts[k] + p.post == x;
      TriggersSpaced(wf, p, 0, 0);
      KeptBehind(ts, p, x, k);
      ReachedBack(wf, p, x, k);
    }
  }

  /** An index right behind a trigger's reach is kept exactly when a later trigger reaches
      back. */
  lemma KeptBehind(ts: seq<int>, p: Params, x: int, k: nat)
    requires p.ante >= 0 && p.post >= 0 && k < |ts| && ts[k] + p.post == x
    requires forall i :: 0 < i < |ts| ==> ts[i - 1] + p.post < ts[i]
    ensures Kept(ts, p, x) <==> exists u :: 0 <= u < |ts| && x < ts[u] <= x + p.ante
  {
    if Kept(ts, p, x) {
      var u :| 0 <= u < |ts| && ts[u] - p.ante <= x < ts[u] + p.post;
      if u < k {
        Ordered(ts, p.post, u, k);
      } else if k < u {
        Ordered(ts, p.post, k, u);
      }
      assert x < ts[u] <= x + p.ante;
    }
    if u :| 0 <= u < |ts| && x < ts[u] <= x + p.ante {
      assert ts[u] - p.ante <= x < ts[u] + p.post;
    }
  }

  /** A later trigger is near exactly when a later index above the cut is. */
  lemma ReachedBack(wf: seq<int>, p: Params, x: nat, k: nat)
    requires 0 < p.varSamples <= x < |wf| && p.ante >= 0 && p.post >= 0
    requires k < |Triggers(wf, p, 0, 0)| && Triggers(wf, p, 0, 0)[k] + p.post == x
    ensures var ts := Triggers(wf, p, 0, 0);
            (exists u :: 0 <= u < |ts| && x < ts[u] <= x + p.ante)
            <==> exists y :: x < y <= x + p.ante && y < |wf| && Exceeds(wf, p, y)
  {
    hide Exceeds, Triggers;
    var ts := Triggers(wf, p, 0, 0);
    TriggersSpaced(wf, p, 0, 0);
    if u :| 0 <= u < |ts| && x < ts[u] <= x + p.ante {
      assert Exceeds(wf, p, ts[u]);
    }
    if y :| x < y <= x + p.ante && y < |wf| && Exceeds(wf, p, y) {
      var u := Covered(wf, p, y);
      if u < k {
        Ordered(ts, p.post, u, k);
      } else if k < u {
        Ordered(ts, p.post, k, u);
      }
      assert x < ts[u] <= x + p.ante;
    }
  }

  // ----- a lost sample -----

  lemma DeviationOfTwo(a: int, b: int, m: real)
    ensures Deviation([a, b], m) == Square(a as real - m) + Square(b as real - m)
    ensures Total([a, b]) == a as real + b as real
  {
    assert [a, b][..1] == [a] && [a][..0] == [];
    assert Total([a]) == a as real && Deviation([a], m) == Square(a as real - m);
    hide Square;
  }

  lemma SpreadOfTwo(a: int, b: int)
    ensures Spread([a, b]) == Square((a - b) as real) / 2.0
  {
    hide Total, Deviation;
    var m := Mean([a, b]);
    DeviationOfTwo(a, b, m);
    assert m == (a as real + b as real) / 2.0;
    var d := (a - b) as real / 2.0;
    assert a as real - m == d && b as real - m == -d;
    assert Square(d) + Square(-d) == 2.0 * Square(d) && Square(2.0 * d) == 4.0 * Square(d);
  }

  /** A window of two samples, none recorded before a trigger and one from it on: of the
      waveform 0, 0, 9, 0 the last two indices are above the cut, but only the first of them
      is recorded. */
  lemma SampleLost()
    ensures var wf, p := [0, 0, 9, 0], Params(2, 0, 1, 1.0);
            && Exceeds(wf, p, 3)
            && Compressed(wf, p) == Pieces([Piece(2, [9])])
            && !Recorded([Piece(2, [9])], wf, 3)
  {
    var wf, p := [0, 0, 9, 0], Params(2, 0, 1, 1.0);
    assert Recent(wf, 2, 2) == [0, 9] && Recent(wf, 2, 3) == [9, 0];
    SpreadOfTwo(0, 9);
    SpreadOfTwo(9, 0);
    hide Spread;
    assert Exceeds(wf, p, 2) && Exceeds(wf, p, 3);
    assert Triggers(wf, p, 4, 3) == [];
    assert Triggers(wf, p, 3, 3) == [];
    assert Triggers(wf, p, 2, 0) == [2];
    assert Triggers(wf, p, 1, 0) == [2];
    assert Triggers(wf, p, 0, 0) == [2];
    assert Cut(wf, 2, 3) == Piece(2, [9]);
    assert PiecesAt(wf, p, [2]) == [Piece(2, [9])];
  }
}
