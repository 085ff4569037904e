/** Accounting for what a decoder stores by the words it has received. */
module Received {
  import opened Division
  import opened Words
  import opened FemHeader

  predicate Before(at: seq<nat>, i: nat, j: nat)
    requires i < |at| && j < |at|
  {
    at[i] < at[j]
  }

  predicate Increasing(at: seq<nat>) {
    forall i, j {:trigger Before(at, i, j)} :: 0 <= i < j < |at| ==> Before(at, i, j)
  }

  /** The elements of `c` stand in `ws` at the places `at`. */
  predicate Picked<T(==)>(c: seq<T>, ws: seq<T>, at: seq<nat>) {
    && |at| == |c| && Increasing(at)
    && forall i {:trigger at[i]} :: 0 <= i < |at| ==> at[i] < |ws| && ws[at[i]] == c[i]
  }

  /** `c` is `ws` with some elements left out. */
  ghost predicate Within<T>(c: seq<T>, ws: seq<T>) { exists at: seq<nat> :: Picked(c, ws, at) }

  /** The 16-bit words of a stream in the order they are taken. */
  function Halves(ws: seq<Word>): seq<u16> {
    if ws == [] then []
    else Halves(ws[..|ws| - 1]) + [ws[|ws| - 1].lo, ws[|ws| - 1].hi]
  }

  /** Lists one behind the other. */
  function Flat<T>(ds: seq<seq<T>>): seq<T> {
    if ds == [] then [] else Flat(ds[..|ds| - 1]) + ds[|ds| - 1]
  }

  function Low24(x: nat): nat { x % 0x100_0000 }

  /** The header is what six of the words received decode to, the last one just now. */
  ghost predicate Installed(h: HeaderInfo, head: seq<Word>) {
    head != [] && exists six: HeaderWords ::
      Within(six, head) && six[FEM_HEADER_COUNT - 1] == head[|head| - 1] && DecodeHeader(six) == Some(h)
  }

  // ----- lists within lists -----

  lemma NothingWithin<T>(ws: seq<T>)
    ensures Within([], ws)
  {
    assert Picked([], ws, []);
  }

  lemma WithinSelf<T>(ws: seq<T>)
    ensures Within(ws, ws)
  {
    var at: seq<nat> := seq(|ws|, i requires 0 <= i < |ws| => i);
    assert Increasing(at);
    assert Picked(ws, ws, at);
  }

  lemma IncreasingPush(at: seq<nat>, n: nat)
    requires Increasing(at) && forall i {:trigger at[i]} :: 0 <= i < |at| ==> at[i] < n
    ensures Increasing(at + [n])
  {
    forall i, j | 0 <= i < j < |at + [n]|
      ensures Before(at + [n], i, j)
    {
      assert j < |at| ==> Before(at, i, j);
    }
  }

  lemma WithinMore<T>(c: seq<T>, ws: seq<T>, w: T)
    requires Within(c, ws)
    ensures Within(c, ws + [w]) && Within(c + [w], ws + [w])
  {
    var at: seq<nat> :| Picked(c, ws, at);
    assert Picked(c, ws + [w], at);
    IncreasingPush(at, |ws|);
    assert Picked(c + [w], ws + [w], at + [|ws|]);
  }

  lemma IncreasingCut(at: seq<nat>, from: nat, to: nat)
    requires Increasing(at) && from <= to <= |at|
    ensures Increasing(at[from..to])
  {
    forall i, j | 0 <= i < j < to - from
      ensures Before(at[from..to], i, j)
    {
      assert Before(at, from + i, from + j);
    }
  }

  lemma WithinPrefix<T>(c: seq<T>, d: seq<T>, ws: seq<T>)
    requires Within(c + d, ws)
    ensures Within(c, ws)
  {
    var at: seq<nat> :| Picked(c + d, ws, at);
    IncreasingCut(at, 0, |c|);
    assert Picked(c, ws, at[0..|c|]);
  }

  lemma WithinSuffix<T>(c: seq<T>, d: seq<T>, ws: seq<T>)
    requires Within(c + d, ws)
    ensures Within(d, ws)
  {
    var at: seq<nat> :| Picked(c + d, ws, at);
    var rest: seq<nat> := at[|c|..|at|];
    IncreasingCut(at, |c|, |at|);
    forall i | 0 <= i < |rest|
      ensures rest[i] < |ws| && ws[rest[i]] == d[i]
    {
      assert rest[i] == at[|c| + i];
    }
    assert Picked(d, ws, rest);
  }

  lemma WithinThen<T>(a: seq<T>, b: seq<T>, c: seq<T>)
    requires Within(a, b) && Within(b, c)
    ensures Within(a, c)
  {
    var at: seq<nat> :| Picked(a, b, at);
    var to: seq<nat> :| Picked(b, c, to);
    var through: seq<nat> := seq(|at|, i requires 0 <= i < |at| => to[at[i]]);
    forall i, j | 0 <= i < j < |through|
      ensures Before(through, i, j)
    {
      assert Before(at, i, j) && Before(to, at[i], at[j]);
    }
    assert Picked(a, c, through);
  }

  lemma WithinJoin<T>(a: seq<T>, x: seq<T>, b: seq<T>, y: seq<T>)
    requires Within(a, x) && Within(b, y)
    ensures Within(a + b, x + y)
  {
    var at: seq<nat> :| Picked(a, x, at);
    var to: seq<nat> :| Picked(b, y, to);
    var moved: seq<nat> := seq(|to|, i requires 0 <= i < |to| => |x| + to[i]);
    var both: seq<nat> := at + moved;
    forall i | 0 <= i < |both|
      ensures both[i] < |x + y| && (x + y)[both[i]] == (a + b)[i]
    {
      assert both[i] == if i < |at| then at[i] else |x| + to[i - |at|];
    }
    forall i, j | 0 <= i < j < |both|
      ensures Before(both, i, j)
    {
      if j < |at| {
        assert Before(at, i, j);
      } else if i >= |at| {
        assert Before(to, i - |at|, j - |at|);
      }
    }
    assert Picked(a + b, x + y, both);
  }

  lemma {:induction false} HalvesAppend(a: seq<Word>, b: seq<Word>)
    ensures Halves(a + b) == Halves(a) + Halves(b)
    decreases |b|
  {
    if b == [] {
      assert a + b == a;
    } else {
      assert (a + b)[..|a + b| - 1] == a + b[..|b| - 1];
      HalvesAppend(a, b[..|b| - 1]);
    }
  }

  lemma {:induction false} HalvesLength(ws: seq<Word>)
    ensures |Halves(ws)| == 2 * |ws|
  {
    if ws != [] {
      HalvesLength(ws[..|ws| - 1]);
    }
  }

  lemma {:induction false} FlatAppend<T>(a: seq<seq<T>>, b: seq<seq<T>>)
    ensures Flat(a + b) == Flat(a) + Flat(b)
    decreases |b|
  {
    if b == [] {
      assert a + b == a;
    } else {
      var front, d := b[..|b| - 1], b[|b| - 1];
      assert a + b == (a + front) + [d] && b == front + [d];
      hide Flat;
      FlatMore(a + front, d);
      FlatMore(front, d);
      FlatAppend(a, front);
      AppendAssoc(Flat(a), Flat(front), d);
    }
  }

  lemma FlatMore<T>(ds: seq<seq<T>>, d: seq<T>)
    ensures Flat(ds + [d]) == Flat(ds) + d
  {
    assert (ds + [d])[..|ds|] == ds;
  }

  lemma CutMore(ws: seq<Word>, k: nat, w: Word)
    requires k <= |ws|
    ensures (ws + [w])[..k] == ws[..k] && Halves((ws + [w])[k..]) == Halves(ws[k..]) + [w.lo, w.hi]
  {
    var rest := (ws + [w])[k..];
    assert rest[..|rest| - 1] == ws[k..];
  }

  // ----- sums and headers -----

  /** Adding to the 32-bit sum adds to its low 24 bits. */
  lemma AddLow(a: nat, b: nat, w: nat)
    requires Low24(a) == Low24(b)
    ensures Low24(Wrap(a + w)) == Low24(b + w)
  {
    WrapLow24(a + w);
    var qa, qb := a / 0x100_0000, b / 0x100_0000;
    var q, r := (b + w) / 0x100_0000, (b + w) % 0x100_0000;
    assert a + w == (qa - qb + q) * 0x100_0000 + r;
    DivMod(a + w, 0x100_0000, qa - qb + q, r);
  }

  lemma SumMore(a: nat, c: seq<u16>, w: u16)
    requires Low24(a) == Low24(Sum(c))
    ensures Low24(Wrap(a + w)) == Low24(Sum(c + [w])) && Wrap(Wrap(|c|) + 1) == Wrap(|c + [w]|)
  {
    AddLow(a, Sum(c), w);
    SumAppend(c, [w]);
    SumOne(w);
    WrapAdd(|c|, 1);
  }

  /** One more header word received. */
  lemma GatheredOne(had: HeaderWords, n: nat, ws: seq<Word>, w: Word)
    requires n < FEM_HEADER_COUNT && Within(had[..n], ws)
    ensures Within(had[n := w][..n + 1], ws + [w])
    ensures n + 1 == FEM_HEADER_COUNT ==> forall h :: DecodeHeader(had[n := w]) == Some(h) ==> Installed(h, ws + [w])
  {
    hide DecodeHeader;
    var words: HeaderWords := had[n := w];
    WithinMore(had[..n], ws, w);
    assert words[..n + 1] == had[..n] + [w];
    if n + 1 == FEM_HEADER_COUNT {
      assert words[..n + 1] == words;
      assert words[FEM_HEADER_COUNT - 1] == (ws + [w])[|ws + [w]| - 1];
    }
  }
}
