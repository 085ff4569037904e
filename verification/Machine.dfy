/** Feeding a list of words to a step function until one is not accepted. */
module Machine {
  import opened Words

  function Feed<S, W>(step: (S, W) -> (S, Outcome), s: S, ws: seq<W>): (S, Outcome)
    decreases |ws|
  {
    if ws == [] then (s, Accepted)
    else
      var (s1, o) := step(s, ws[0]);
      if o == Accepted then Feed(step, s1, ws[1..]) else (s1, o)
  }

  lemma {:induction false} FeedAppend<S, W>(step: (S, W) -> (S, Outcome), s: S, a: seq<W>, b: seq<W>)
    ensures var (s1, o) := Feed(step, s, a);
            Feed(step, s, a + b) == if o == Accepted then Feed(step, s1, b) else (s1, o)
    decreases |a|
  {
    if a == [] {
      assert a + b == b;
    } else {
      assert (a + b)[1..] == a[1..] + b;
      FeedAppend(step, step(s, a[0]).0, a[1..], b);
    }
  }

  lemma FeedOne<S, W>(step: (S, W) -> (S, Outcome), s: S, w: W)
    ensures Feed(step, s, [w]) == step(s, w)
  {
    assert [w][1..] == [];
  }

  /** One word more of a list. */
  lemma FeedMore<S, W>(step: (S, W) -> (S, Outcome), s: S, ws: seq<W>, n: nat)
    requires n < |ws| && Feed(step, s, ws[..n]).1 == Accepted
    ensures Feed(step, s, ws[..n + 1]) == step(Feed(step, s, ws[..n]).0, ws[n])
  {
    assert ws[..n + 1] == ws[..n] + [ws[n]];
    FeedAppend(step, s, ws[..n], [ws[n]]);
    FeedOne(step, Feed(step, s, ws[..n]).0, ws[n]);
  }

  lemma FeedTwo<S, W>(step: (S, W) -> (S, Outcome), s: S, ws: seq<W>)
    requires |ws| >= 2
    ensures var (s1, o1) := step(s, ws[0]);
            Feed(step, s, ws) ==
            if o1 != Accepted then (s1, o1)
            else
              var (s2, o2) := step(s1, ws[1]);
              if o2 == Accepted then Feed(step, s2, ws[2..]) else (s2, o2)
  {
    assert ws[1..][1..] == ws[2..];
  }
}
