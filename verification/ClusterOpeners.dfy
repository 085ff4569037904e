/** Which clusters open the sets of a merging run, read off the input alone. */
module ClusterOpeners {
  import opened ClusterBooks
  import opened ClusterMerge

  /** Some cluster before position `upto` is compatible with the one at `c`. */
  predicate Earlier(compat: Compatible, cs: seq<Cluster>, upto: nat, c: nat)
    requires upto <= |cs| && c < |cs|
  {
    exists k :: 0 <= k < upto && compat(cs[k], cs[c])
  }

  /** The cluster at `i` is compatible with a later one before position `upto`. */
  predicate Later(compat: Compatible, cs: seq<Cluster>, i: nat, upto: nat)
    requires i < |cs| && upto <= |cs|
  {
    exists l :: i < l < upto && compat(cs[i], cs[l])
  }

  /** `j` is the first later partner of `v`, and neither has a partner before `v`. */
  predicate OpensWith(compat: Compatible, cs: seq<Cluster>, v: nat, j: nat)
    requires v < j < |cs|
  {
    compat(cs[v], cs[j]) && !Later(compat, cs, v, j) && !Earlier(compat, cs, v, v) && !Earlier(compat, cs, v, j)
  }

  predicate Opener(compat: Compatible, cs: seq<Cluster>, v: nat)
    requires v < |cs|
  {
    exists j :: v < j < |cs| && OpensWith(compat, cs, v, j)
  }

  /** The openers from position `i` on, in order. */
  function OpenerIds(compat: Compatible, cs: seq<Cluster>, i: nat): seq<nat>
    decreases |cs| - i
  {
    if i >= |cs| then []
    else (if Opener(compat, cs, i) then [cs[i].id] else []) + OpenerIds(compat, cs, i + 1)
  }

  lemma {:induction false} OpenerIdsAre(compat: Compatible, cs: seq<Cluster>, i: nat, id: nat)
    ensures id in OpenerIds(compat, cs, i) <==> exists v :: i <= v < |cs| && Opener(compat, cs, v) && cs[v].id == id
    decreases |cs| - i
  {
    hide Opener;
    if i < |cs| {
      var head, rest := if Opener(compat, cs, i) then [cs[i].id] else [], OpenerIds(compat, cs, i + 1);
      OpenerIdsAre(compat, cs, i + 1, id);
      assert OpenerIds(compat, cs, i) == head + rest;
      assert id in head + rest <==> id in head || id in rest;
    }
  }

  /** The first cluster of every set. */
  function Firsts(sets: seq<seq<nat>>): seq<nat> {
    seq(|sets|, k requires 0 <= k < |sets| => if sets[k] == [] then 0 else sets[k][0])
  }

  // ----- one pair -----

  lemma BuildFirsts(m: Books, links: Links, a: nat, b: nat)
    requires Building(m, links) && a < |m.index| && b < |m.index| && a != b
    ensures var m' := Build(m, a, b);
            && |m'.index| == |m.index|
            && Firsts(m'.sets) == Firsts(m.sets) + (if m.index[a] < 0 && m.index[b] < 0 then [a] else [])
            && (forall c :: 0 <= c < |m.index| ==> (m'.index[c] >= 0 <==> m.index[c] >= 0 || c == a || c == b))
  {
    var ai, bi := m.index[a], m.index[b];
    if ai < 0 && bi < 0 {
      OpenFirsts(m, a, b);
    } else if ai >= 0 && bi < 0 {
      JoinFirsts(m, b, ai);
    } else if ai < 0 && bi >= 0 {
      JoinFirsts(m, a, bi);
    }
  }

  lemma JoinFirsts(m: Books, id: nat, into: nat)
    requires NoRepeats(m) && into < |m.sets| && id < |m.index| && m.index[id] < 0
    ensures Firsts(Append(m, id, into).sets) == Firsts(m.sets)
  {
  }

  lemma OpenFirsts(m: Books, a: nat, b: nat)
    requires Agree(m) && NoRepeats(m) && a < |m.index| && b < |m.index| && a != b && m.index[a] < 0 && m.index[b] < 0
    ensures Build(m, a, b) == Append(Append(m, a, -1), b, |m.sets|)
    ensures Firsts(Build(m, a, b).sets) == Firsts(m.sets) + [a]
  {
    var m1 := Append(m, a, -1);
    var m2 := Append(m1, b, |m.sets|);
    assert m2.sets == m.sets + [[a] + [b]];
  }

  // ----- one row -----

  /** What is placed after cluster `i` was compared with those before `j`. */
  ghost predicate RowState(m: Books, compat: Compatible, cs: seq<Cluster>, i: nat, j: nat)
    requires i < j <= |cs| && Known(cs, |m.index|)
  {
    && (m.index[cs[i].id] >= 0 <==> Earlier(compat, cs, i, i) || Later(compat, cs, i, j))
    && (forall c :: i < c < j ==> (m.index[cs[c].id] >= 0 <==> Earlier(compat, cs, i + 1, c)))
    && (forall c :: j <= c < |cs| ==> (m.index[cs[c].id] >= 0 <==> Earlier(compat, cs, i, c)))
  }

  lemma EarlierMore(compat: Compatible, cs: seq<Cluster>, i: nat, c: nat)
    requires i < |cs| && c < |cs|
    ensures Earlier(compat, cs, i + 1, c) <==> Earlier(compat, cs, i, c) || compat(cs[i], cs[c])
  {
  }

  lemma LaterMore(compat: Compatible, cs: seq<Cluster>, i: nat, j: nat)
    requires i < j < |cs|
    ensures Later(compat, cs, i, j + 1) <==> Later(compat, cs, i, j) || compat(cs[i], cs[j])
  {
  }

  lemma RowStateStep(m: Books, links: Links, compat: Compatible, cs: seq<Cluster>, i: nat, j: nat)
    requires Building(m, links) && i < j < |cs| && Known(cs, |m.index|) && Distinct(cs) && RowState(m, compat, cs, i, j)
    ensures var m' := BuildPair(m, compat, cs[i], cs[j]);
            && RowState(m', compat, cs, i, j + 1)
            && Firsts(m'.sets) == Firsts(m.sets) + (if OpensWith(compat, cs, i, j) then [cs[i].id] else [])
  {
    hide Building, Build, Firsts, Earlier, Later;
    EarlierMore(compat, cs, i, j);
    LaterMore(compat, cs, i, j);
    if compat(cs[i], cs[j]) {
      BuildFirsts(m, links, cs[i].id, cs[j].id);
    }
  }

  /** A row adds one set if its cluster is an opener, and none otherwise. */
  lemma {:induction false} RowFirsts(m: Books, links: Links, compat: Compatible, cs: seq<Cluster>, i: nat, j: nat)
    requires Building(m, links) && i < j <= |cs| && Known(cs, |m.index|) && Distinct(cs)
    requires RowState(m, compat, cs, i, j)
    ensures var m' := MergeRow(m, compat, cs, i, j);
            && RowState(m', compat, cs, i, |cs|)
            && Firsts(m'.sets) == Firsts(m.sets)
                 + (if exists l :: j <= l < |cs| && OpensWith(compat, cs, i, l) then [cs[i].id] else [])
    decreases |cs| - j
  {
    hide Building, Build, Firsts, RowState, BuildPair, Distinct, Earlier, Later, OpensWith;
    if j < |cs| {
      var m1 := BuildPair(m, compat, cs[i], cs[j]);
      RowStateStep(m, links, compat, cs, i, j);
      PairKeeps(m, links, compat, cs, i, j);
      var more :| Building(m1, more);
      RowFirsts(m1, more, compat, cs, i, j + 1);
      OpensOnce(compat, cs, i, j);
    }
  }

  lemma PairKeeps(m: Books, links: Links, compat: Compatible, cs: seq<Cluster>, i: nat, j: nat)
    requires Building(m, links) && i < j < |cs| && Known(cs, |m.index|) && Distinct(cs)
    ensures exists more :: Building(BuildPair(m, compat, cs[i], cs[j]), more)
  {
    hide Building, Build;
    if compat(cs[i], cs[j]) {
      BuildKeeps(m, links, cs[i].id, cs[j].id);
      assert Building(BuildPair(m, compat, cs[i], cs[j]), links + {(cs[i].id, cs[j].id)});
    } else {
      assert Building(BuildPair(m, compat, cs[i], cs[j]), links);
    }
  }

  lemma OpensOnce(compat: Compatible, cs: seq<Cluster>, i: nat, j: nat)
    requires i < j < |cs|
    ensures OpensWith(compat, cs, i, j) ==> forall l :: j < l < |cs| ==> !OpensWith(compat, cs, i, l)
  {
  }

  // ----- all rows of a view -----

  ghost predicate ViewState(m: Books, compat: Compatible, cs: seq<Cluster>, i: nat)
    requires i <= |cs| && Known(cs, |m.index|)
  {
    forall c :: i <= c < |cs| ==> (m.index[cs[c].id] >= 0 <==> Earlier(compat, cs, i, c))
  }

  /** One whole row, from the state of the view before it to that after it. */
  lemma ViewStep(m: Books, links: Links, compat: Compatible, cs: seq<Cluster>, i: nat)
    requires Building(m, links) && i < |cs| && Known(cs, |m.index|) && Distinct(cs) && ViewState(m, compat, cs, i)
    ensures var m' := MergeRow(m, compat, cs, i, i + 1);
            && ViewState(m', compat, cs, i + 1)
            && Firsts(m'.sets) == Firsts(m.sets) + (if Opener(compat, cs, i) then [cs[i].id] else [])
            && Building(m', links + LinksRow(compat, cs, i, i + 1))
  {
    hide Building, Firsts, Earlier, OpensWith, Distinct, MergeRow, LinksRow;
    assert !Later(compat, cs, i, i + 1);
    RowFirsts(m, links, compat, cs, i, i + 1);
    RowKeeps(m, links, compat, cs, i, i + 1);
  }

  lemma {:induction false} ViewFirsts(m: Books, links: Links, compat: Compatible, cs: seq<Cluster>, i: nat)
    requires Building(m, links) && i <= |cs| && Known(cs, |m.index|) && Distinct(cs) && ViewState(m, compat, cs, i)
    ensures Firsts(MergeRows(m, compat, cs, i).sets) == Firsts(m.sets) + OpenerIds(compat, cs, i)
    decreases |cs| - i
  {
    hide Building, Firsts, ViewState, Opener, Distinct, MergeRow, LinksRow;
    if i < |cs| {
      ViewStep(m, links, compat, cs, i);
      ViewFirsts(MergeRow(m, compat, cs, i, i + 1), links + LinksRow(compat, cs, i, i + 1), compat, cs, i + 1);
    }
  }

  lemma {:induction false} RowOthers(m: Books, compat: Compatible, cs: seq<Cluster>, i: nat, j: nat, id: nat)
    requires i < |cs| && Known(cs, |m.index|) && id < |m.index| && !Listed(cs, id)
    ensures MergeRow(m, compat, cs, i, j).index[id] == m.index[id]
    decreases |cs| - j
  {
    if j < |cs| {
      var m1 := BuildPair(m, compat, cs[i], cs[j]);
      assert m1.index[id] == m.index[id];
      hide BuildPair;
      RowOthers(m1, compat, cs, i, j + 1, id);
    }
  }

  lemma {:induction false} RowsOthers(m: Books, compat: Compatible, cs: seq<Cluster>, i: nat, id: nat)
    requires Known(cs, |m.index|) && id < |m.index| && !Listed(cs, id)
    ensures MergeRows(m, compat, cs, i).index[id] == m.index[id]
    decreases |cs| - i
  {
    if i < |cs| {
      RowOthers(m, compat, cs, i, i + 1, id);
      RowsOthers(MergeRow(m, compat, cs, i, i + 1), compat, cs, i + 1, id);
    }
  }

  /** None of the view's clusters is placed. */
  ghost predicate Untouched(m: Books, cs: seq<Cluster>)
    requires Known(cs, |m.index|)
  {
    forall i :: 0 <= i < |cs| ==> m.index[cs[i].id] < 0
  }

  predicate Apart(a: seq<Cluster>, b: seq<Cluster>) {
    forall i, j :: 0 <= i < |a| && 0 <= j < |b| ==> a[i].id != b[j].id
  }

  lemma StillUntouched(m: Books, compat: Compatible, a: seq<Cluster>, b: seq<Cluster>)
    requires Known(a, |m.index|) && Known(b, |m.index|) && Apart(a, b) && Untouched(m, b)
    ensures Untouched(MergeRows(m, compat, a, 0), b)
  {
    forall i | 0 <= i < |b|
      ensures MergeRows(m, compat, a, 0).index[b[i].id] < 0
    {
      RowsOthers(m, compat, a, 0, b[i].id);
    }
  }

  lemma WholeView(m: Books, links: Links, compat: Compatible, cs: seq<Cluster>)
    requires Building(m, links) && Known(cs, |m.index|) && Distinct(cs) && Untouched(m, cs)
    ensures Firsts(MergeRows(m, compat, cs, 0).sets) == Firsts(m.sets) + OpenerIds(compat, cs, 0)
    ensures Building(MergeRows(m, compat, cs, 0), links + LinksOf(compat, cs, 0))
  {
    hide Building, Firsts, Distinct, MergeRows, LinksOf, OpenerIds;
    RowsKeep(m, links, compat, cs, 0);
    ViewFirsts(m, links, compat, cs, 0);
  }

  lemma ApartParts(u: seq<Cluster>, v: seq<Cluster>, w: seq<Cluster>)
    requires Distinct(u + v + w)
    ensures Apart(u, v) && Apart(u, w) && Apart(v, w)
  {
    var all := u + v + w;
    assert forall i :: 0 <= i < |u| ==> all[i] == u[i];
    assert forall i :: 0 <= i < |v| ==> all[|u| + i] == v[i];
    assert forall i :: 0 <= i < |w| ==> all[|u| + |v| + i] == w[i];
  }

  /** All openers of the three views. */
  function AllOpeners(compat: Compatible, u: seq<Cluster>, v: seq<Cluster>, w: seq<Cluster>): seq<nat> {
    OpenerIds(compat, u, 0) + OpenerIds(compat, v, 0) + OpenerIds(compat, w, 0)
  }

  lemma CleanStart(m: Books)
    requires Clean(m)
    ensures Building(m.(sets := []), {}) && Firsts([]) == []
    ensures forall cs: seq<Cluster> :: Known(cs, |m.index|) ==> Untouched(m.(sets := []), cs)
  {
  }

  lemma FirstTwoViews(m: Books, compat: Compatible, u: seq<Cluster>, v: seq<Cluster>)
    requires Building(m, {}) && Firsts(m.sets) == []
    requires Known(u, |m.index|) && Known(v, |m.index|) && Distinct(u) && Distinct(v) && Apart(u, v)
    requires Untouched(m, u) && Untouched(m, v)
    ensures var m2 := MergeRows(MergeRows(m, compat, u, 0), compat, v, 0);
            && Firsts(m2.sets) == OpenerIds(compat, u, 0) + OpenerIds(compat, v, 0)
            && exists links :: Building(m2, links)
  {
    hide Building, Firsts, Distinct, OpenerIds, MergeRows, LinksOf, Apart, Untouched;
    WholeView(m, {}, compat, u);
    var m1 := MergeRows(m, compat, u, 0);
    StillUntouched(m, compat, u, v);
    WholeView(m1, {} + LinksOf(compat, u, 0), compat, v);
    assert Building(MergeRows(m1, compat, v, 0), {} + LinksOf(compat, u, 0) + LinksOf(compat, v, 0));
  }

  /** The sets built from compatible pairs begin with the openers, in order. */
  lemma MergeFirsts(m: Books, compat: Compatible, u: seq<Cluster>, v: seq<Cluster>, w: seq<Cluster>)
    requires Clean(m) && Known(u + v + w, |m.index|) && Distinct(u + v + w)
    ensures Firsts(MergeAll(m, compat, u, v, w).sets) == AllOpeners(compat, u, v, w)
  {
    hide Building, Firsts, Distinct, OpenerIds, MergeRows, LinksOf, Apart, Untouched, Known;
    var m0 := m.(sets := []);
    CleanStart(m);
    KnownParts(u, v, w, |m.index|);
    DistinctParts(u, v, w);
    ApartParts(u, v, w);
    FirstTwoViews(m0, compat, u, v);
    var m1 := MergeRows(m0, compat, u, 0);
    var m2 := MergeRows(m1, compat, v, 0);
    StillUntouched(m0, compat, u, w);
    StillUntouched(m1, compat, v, w);
    var links :| Building(m2, links);
    WholeView(m2, links, compat, w);
  }

  /** The sets of two or more clusters are as many as the openers of the three views, come
      first, and begin with the openers in order. */
  lemma SetsOpened(m: Books, compat: Compatible, u: seq<Cluster>, v: seq<Cluster>, w: seq<Cluster>)
    requires Clean(m) && Known(u + v + w, |m.index|) && Distinct(u + v + w)
    ensures var sets, openers := Process(m, compat, u, v, w).sets, AllOpeners(compat, u, v, w);
            && |MergeAll(m, compat, u, v, w).sets| == |openers| <= |sets|
            && Firsts(sets[..|openers|]) == openers
            && (forall k :: 0 <= k < |sets| ==> (|sets[k]| >= 2 <==> k < |openers|))
  {
    hide Process, MergeAll, Finalize, AllLinks, AllOpeners, Distinct;
    MergeFirsts(m, compat, u, v, w);
    MergeKeeps(m, compat, u, v, w);
    var m1 := MergeAll(m, compat, u, v, w);
    FinalizeCompletes(m1, AllLinks(compat, u, v, w), u + v + w, 0);
    ProcessIs(m, compat, u, v, w);
    var sets := Process(m, compat, u, v, w).sets;
    assert sets[..|m1.sets|] == m1.sets;
  }
}
