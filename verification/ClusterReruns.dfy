/** Running the merging on books that are not clean: after another run, or after more
    clusters were added to an event that was merged already. */
module ClusterReruns {
  import opened ClusterBooks
  import opened ClusterMerge

  // ----- clusters that were placed before the run -----

  /** A cluster placed in `before` keeps its number and is in no set. */
  ghost predicate Ignored(before: seq<int>, m: Books) {
    && |m.index| == |before|
    && (forall c :: 0 <= c < |before| && before[c] >= 0 ==> m.index[c] == before[c])
    && (forall k, p :: 0 <= k < |m.sets| && 0 <= p < |m.sets[k]| ==>
          m.sets[k][p] < |before| && before[m.sets[k][p]] < 0)
  }

  lemma AppendIgnores(before: seq<int>, m: Books, id: nat, into: int)
    requires Ignored(before, m) && id < |m.index|
    ensures Ignored(before, Append(m, id, into)) && |Append(m, id, into).index| == |m.index|
  {
  }

  lemma BuildIgnores(before: seq<int>, m: Books, a: nat, b: nat)
    requires Ignored(before, m) && a < |m.index| && b < |m.index|
    ensures Ignored(before, Build(m, a, b))
  {
    hide Ignored, Append;
    var ai, bi := m.index[a], m.index[b];
    AppendIgnores(before, m, a, -1);
    var m1 := Append(m, a, -1);
    AppendIgnores(before, m1, b, 0);
    AppendIgnores(before, m1, b, m1.index[a]);
    AppendIgnores(before, m, b, ai);
    AppendIgnores(before, m, a, bi);
    SameBooks(before, m, m.(conflicts := m.conflicts + [(a, b)]));
  }

  lemma SameBooks(before: seq<int>, m: Books, m': Books)
    requires Ignored(before, m) && m'.index == m.index && m'.sets == m.sets
    ensures Ignored(before, m')
  {
  }

  lemma {:induction false} RowIgnores(before: seq<int>, m: Books, compat: Compatible, cs: seq<Cluster>, i: nat, j: nat)
    requires Ignored(before, m) && i < |cs| && Known(cs, |m.index|)
    ensures Ignored(before, MergeRow(m, compat, cs, i, j))
    decreases |cs| - j
  {
    hide Ignored, Build;
    if j < |cs| {
      if compat(cs[i], cs[j]) {
        BuildIgnores(before, m, cs[i].id, cs[j].id);
      }
      RowIgnores(before, BuildPair(m, compat, cs[i], cs[j]), compat, cs, i, j + 1);
    }
  }

  lemma {:induction false} RowsIgnore(before: seq<int>, m: Books, compat: Compatible, cs: seq<Cluster>, i: nat)
    requires Ignored(before, m) && Known(cs, |m.index|)
    ensures Ignored(before, MergeRows(m, compat, cs, i))
    decreases |cs| - i
  {
    hide Ignored;
    if i < |cs| {
      RowIgnores(before, m, compat, cs, i, i + 1);
      RowsIgnore(before, MergeRow(m, compat, cs, i, i + 1), compat, cs, i + 1);
    }
  }

  lemma {:induction false} FinalizeIgnores(before: seq<int>, m: Books, cs: seq<Cluster>, i: nat)
    requires Ignored(before, m) && Known(cs, |m.index|)
    ensures Ignored(before, Finalize(m, cs, i))
    decreases |cs| - i
  {
    hide Ignored, Append;
    if i < |cs| {
      var id := cs[i].id;
      AppendIgnores(before, m, id, -1);
      FinalizeIgnores(before, if m.index[id] < 0 then Append(m, id, -1) else m, cs, i + 1);
    }
  }

  lemma ProcessIgnores(m: Books, compat: Compatible, u: seq<Cluster>, v: seq<Cluster>, w: seq<Cluster>)
    requires Known(u + v + w, |m.index|)
    ensures Ignored(m.index, Process(m, compat, u, v, w))
  {
    assert Ignored(m.index, m.(sets := []));
    hide Ignored;
    KnownParts(u, v, w, |m.index|);
    RowsIgnore(m.index, m.(sets := []), compat, u, 0);
    var m1 := MergeRows(m.(sets := []), compat, u, 0);
    RowsIgnore(m.index, m1, compat, v, 0);
    var m2 := MergeRows(m1, compat, v, 0);
    RowsIgnore(m.index, m2, compat, w, 0);
    FinalizeIgnores(m.index, MergeAll(m, compat, u, v, w), u + v + w, 0);
  }

  // ----- earlier complaints -----

  /** The same books with earlier complaints in front. */
  function Behind(pre: seq<(nat, nat)>, m: Books): Books { m.(conflicts := pre + m.conflicts) }

  lemma BuildBehind(pre: seq<(nat, nat)>, m: Books, a: nat, b: nat)
    requires a < |m.index| && b < |m.index|
    ensures Build(Behind(pre, m), a, b) == Behind(pre, Build(m, a, b))
  {
    assert pre + m.conflicts + [(a, b)] == pre + (m.conflicts + [(a, b)]);
  }

  lemma {:induction false} RowBehind(pre: seq<(nat, nat)>, m: Books, compat: Compatible, cs: seq<Cluster>,
                                     i: nat, j: nat)
    requires i < |cs| && Known(cs, |m.index|)
    ensures MergeRow(Behind(pre, m), compat, cs, i, j) == Behind(pre, MergeRow(m, compat, cs, i, j))
    decreases |cs| - j
  {
    hide Build;
    if j < |cs| {
      if compat(cs[i], cs[j]) {
        BuildBehind(pre, m, cs[i].id, cs[j].id);
      }
      RowBehind(pre, BuildPair(m, compat, cs[i], cs[j]), compat, cs, i, j + 1);
    }
  }

  lemma {:induction false} RowsBehind(pre: seq<(nat, nat)>, m: Books, compat: Compatible, cs: seq<Cluster>, i: nat)
    requires Known(cs, |m.index|)
    ensures MergeRows(Behind(pre, m), compat, cs, i) == Behind(pre, MergeRows(m, compat, cs, i))
    decreases |cs| - i
  {
    if i < |cs| {
      RowBehind(pre, m, compat, cs, i, i + 1);
      RowsBehind(pre, MergeRow(m, compat, cs, i, i + 1), compat, cs, i + 1);
    }
  }

  lemma {:induction false} FinalizeBehind(pre: seq<(nat, nat)>, m: Books, cs: seq<Cluster>, i: nat)
    requires Known(cs, |m.index|)
    ensures Finalize(Behind(pre, m), cs, i) == Behind(pre, Finalize(m, cs, i))
    decreases |cs| - i
  {
    if i < |cs| {
      var id := cs[i].id;
      FinalizeBehind(pre, if m.index[id] < 0 then Append(m, id, -1) else m, cs, i + 1);
    }
  }

  /** Earlier complaints make no difference to a run. */
  lemma ProcessBehind(pre: seq<(nat, nat)>, m: Books, compat: Compatible, u: seq<Cluster>, v: seq<Cluster>,
                      w: seq<Cluster>)
    requires Known(u + v + w, |m.index|)
    ensures Process(Behind(pre, m), compat, u, v, w) == Behind(pre, Process(m, compat, u, v, w))
  {
    hide MergeRows, Finalize;
    KnownParts(u, v, w, |m.index|);
    var m0 := m.(sets := []);
    assert Behind(pre, m).(sets := []) == Behind(pre, m0);
    RowsBehind(pre, m0, compat, u, 0);
    var m1 := MergeRows(m0, compat, u, 0);
    RowsBehind(pre, m1, compat, v, 0);
    RowsBehind(pre, MergeRows(m1, compat, v, 0), compat, w, 0);
    FinalizeBehind(pre, MergeAll(m, compat, u, v, w), u + v + w, 0);
  }

  /** A run partitions its input exactly when no cluster number, of this input or not, is
      marked as placed before it; then every set is connected by compatible pairs. */
  lemma PartitionExactly(m: Books, compat: Compatible, u: seq<Cluster>, v: seq<Cluster>, w: seq<Cluster>)
    requires Known(u + v + w, |m.index|) && Distinct(u + v + w)
    requires forall c :: 0 <= c < |m.index| ==> m.index[c] >= -1
    ensures var m' := Process(m, compat, u, v, w);
            && (Partition(m', u + v + w) <==> forall c :: 0 <= c < |m.index| ==> m.index[c] == -1)
            && (Partition(m', u + v + w) ==> Connected(m', AllLinks(compat, u, v, w)))
  {
    hide Process, AllLinks, Connected, Distinct;
    var m' := Process(m, compat, u, v, w);
    if forall c :: 0 <= c < |m.index| ==> m.index[c] == -1 {
      var clean := m.(conflicts := []);
      ProcessPartitions(clean, compat, u, v, w);
      assert m == Behind(m.conflicts, clean);
      ProcessBehind(m.conflicts, clean, compat, u, v, w);
      ConnectedSame(Process(clean, compat, u, v, w), m', AllLinks(compat, u, v, w));
    } else {
      ProcessIgnores(m, compat, u, v, w);
      NotPartitioned(m.index, m', u + v + w);
    }
  }

  lemma ConnectedSame(m: Books, m': Books, links: Links)
    requires Connected(m, links) && m'.sets == m.sets
    ensures Connected(m', links)
  {
  }

  lemma NotPartitioned(before: seq<int>, m: Books, cs: seq<Cluster>)
    requires Ignored(before, m) && exists c :: 0 <= c < |before| && before[c] >= 0
    ensures !Partition(m, cs)
  {
    var c :| 0 <= c < |before| && before[c] >= 0;
    forall k | 0 <= k < |m.sets|
      ensures c !in m.sets[k]
    {
      assert forall p :: 0 <= p < |m.sets[k]| ==> before[m.sets[k][p]] < 0;
    }
    assert m.index[c] == before[c];
  }

  // ----- marks outside the input -----

  /** The sets alone: none empty, every cluster of the input in exactly one place, and
      nothing else. */
  ghost predicate SetsPartition(sets: seq<seq<nat>>, cs: seq<Cluster>) {
    && (forall k :: 0 <= k < |sets| ==> sets[k] != [])
    && (forall k, p :: 0 <= k < |sets| && 0 <= p < |sets[k]| ==> Listed(cs, sets[k][p]))
    && (forall i :: 0 <= i < |cs| ==> exists k :: 0 <= k < |sets| && cs[i].id in sets[k])
    && (forall k, l, p, q :: 0 <= k < |sets| && 0 <= l < |sets| && 0 <= p < |sets[k]| && 0 <= q < |sets[l]| ==>
          sets[k][p] == sets[l][q] ==> k == l && p == q)
  }

  lemma PartitionSets(m: Books, cs: seq<Cluster>)
    requires Partition(m, cs)
    ensures SetsPartition(m.sets, cs)
  {
    forall i | 0 <= i < |cs|
      ensures exists k :: 0 <= k < |m.sets| && cs[i].id in m.sets[k]
    {
      assert cs[i].id in m.sets[m.index[cs[i].id]];
    }
    forall k, l, p, q | 0 <= k < |m.sets| && 0 <= l < |m.sets| && 0 <= p < |m.sets[k]| && 0 <= q < |m.sets[l]|
                        && m.sets[k][p] == m.sets[l][q]
      ensures k == l && p == q
    {
      assert m.index[m.sets[k][p]] == k && m.index[m.sets[l][q]] == l;
    }
  }

  /** The same books with no mark on clusters outside the input. */
  ghost function Masked(m: Books, cs: seq<Cluster>): Books {
    m.(index := seq(|m.index|, c requires 0 <= c < |m.index| => if Listed(cs, c) then m.index[c] else -1))
  }

  lemma AppendMasked(m: Books, cs: seq<Cluster>, id: nat, into: int)
    requires id < |m.index| && Listed(cs, id)
    ensures Append(Masked(m, cs), id, into) == Masked(Append(m, id, into), cs)
    ensures |Append(m, id, into).index| == |m.index| && Masked(m, cs).index[id] == m.index[id]
  {
    hide Listed;
    assert Append(Masked(m, cs), id, into).index == Masked(Append(m, id, into), cs).index;
  }

  lemma BuildMasked(m: Books, cs: seq<Cluster>, a: nat, b: nat)
    requires a < |m.index| && b < |m.index| && Listed(cs, a) && Listed(cs, b)
    ensures Build(Masked(m, cs), a, b) == Masked(Build(m, a, b), cs)
  {
    hide Append, Listed;
    AppendMasked(m, cs, a, -1);
    AppendMasked(m, cs, a, m.index[b]);
    AppendMasked(m, cs, b, m.index[a]);
    var m1 := Append(m, a, -1);
    AppendMasked(m1, cs, b, 0);
    AppendMasked(m1, cs, b, m1.index[a]);
    AppendMasked(m1, cs, a, 0);
  }

  lemma {:induction false} RowMasked(m: Books, all: seq<Cluster>, compat: Compatible, cs: seq<Cluster>, i: nat, j: nat)
    requires i < |cs| && Known(cs, |m.index|) && forall k :: 0 <= k < |cs| ==> Listed(all, cs[k].id)
    ensures MergeRow(Masked(m, all), compat, cs, i, j) == Masked(MergeRow(m, compat, cs, i, j), all)
    decreases |cs| - j
  {
    hide Build, Masked, Listed;
    SameSize(m, all);
    if j < |cs| {
      if compat(cs[i], cs[j]) {
        BuildMasked(m, all, cs[i].id, cs[j].id);
      }
      RowMasked(BuildPair(m, compat, cs[i], cs[j]), all, compat, cs, i, j + 1);
    }
  }

  lemma SameSize(m: Books, all: seq<Cluster>)
    ensures |Masked(m, all).index| == |m.index| && Masked(m, all).sets == m.sets
    ensures Masked(m, all).(sets := []) == Masked(m.(sets := []), all)
  {
  }

  lemma {:induction false} RowsMasked(m: Books, all: seq<Cluster>, compat: Compatible, cs: seq<Cluster>, i: nat)
    requires Known(cs, |m.index|) && forall k :: 0 <= k < |cs| ==> Listed(all, cs[k].id)
    ensures |Masked(m, all).index| == |m.index|
    ensures MergeRows(Masked(m, all), compat, cs, i) == Masked(MergeRows(m, compat, cs, i), all)
    decreases |cs| - i
  {
    hide Masked, Listed, MergeRow;
    SameSize(m, all);
    if i < |cs| {
      RowMasked(m, all, compat, cs, i, i + 1);
      RowsMasked(MergeRow(m, compat, cs, i, i + 1), all, compat, cs, i + 1);
    }
  }

  lemma {:induction false} FinalizeMasked(m: Books, cs: seq<Cluster>, i: nat)
    requires Known(cs, |m.index|)
    ensures |Masked(m, cs).index| == |m.index|
    ensures Finalize(Masked(m, cs), cs, i) == Masked(Finalize(m, cs, i), cs)
    decreases |cs| - i
  {
    hide Masked, Listed, Append;
    SameSize(m, cs);
    if i < |cs| {
      var id := cs[i].id;
      assert Listed(cs, id) by { ListedAt(cs, i); }
      AppendMasked(m, cs, id, -1);
      FinalizeMasked(if m.index[id] < 0 then Append(m, id, -1) else m, cs, i + 1);
    }
  }

  lemma ListedAt(cs: seq<Cluster>, i: nat)
    requires i < |cs|
    ensures Listed(cs, cs[i].id)
  {
  }

  /** Marks outside the input make no difference to the sets. */
  lemma ProcessMasked(m: Books, compat: Compatible, u: seq<Cluster>, v: seq<Cluster>, w: seq<Cluster>)
    requires Known(u + v + w, |m.index|)
    ensures |Masked(m, u + v + w).index| == |m.index|
    ensures Process(Masked(m, u + v + w), compat, u, v, w) == Masked(Process(m, compat, u, v, w), u + v + w)
  {
    hide MergeRows, Finalize, Masked, Listed;
    var all := u + v + w;
    SameSize(m, all);
    KnownParts(u, v, w, |m.index|);
    AllListed(u, v, w);
    var m0 := m.(sets := []);
    RowsMasked(m0, all, compat, u, 0);
    var m1 := MergeRows(m0, compat, u, 0);
    RowsMasked(m1, all, compat, v, 0);
    RowsMasked(MergeRows(m1, compat, v, 0), all, compat, w, 0);
    FinalizeMasked(MergeAll(m, compat, u, v, w), all, 0);
  }

  lemma AllListed(u: seq<Cluster>, v: seq<Cluster>, w: seq<Cluster>)
    ensures forall k :: 0 <= k < |u| ==> Listed(u + v + w, u[k].id)
    ensures forall k :: 0 <= k < |v| ==> Listed(u + v + w, v[k].id)
    ensures forall k :: 0 <= k < |w| ==> Listed(u + v + w, w[k].id)
  {
    forall k | 0 <= k < |u|
      ensures Listed(u + v + w, u[k].id)
    {
      assert (u + v + w)[k] == u[k];
    }
    forall k | 0 <= k < |v|
      ensures Listed(u + v + w, v[k].id)
    {
      assert (u + v + w)[|u| + k] == v[k];
    }
    forall k | 0 <= k < |w|
      ensures Listed(u + v + w, w[k].id)
    {
      assert (u + v + w)[|u| + |v| + k] == w[k];
    }
  }

  /** The sets that a run returns partition its input exactly when no cluster of the input
      is marked as placed before it, whatever marks there are on others. */
  lemma SetsPartitionExactly(m: Books, compat: Compatible, u: seq<Cluster>, v: seq<Cluster>, w: seq<Cluster>)
    requires Known(u + v + w, |m.index|) && Distinct(u + v + w)
    requires forall c :: 0 <= c < |m.index| ==> m.index[c] >= -1
    ensures var cs := u + v + w;
            SetsPartition(Process(m, compat, u, v, w).sets, cs) <==>
            forall i :: 0 <= i < |cs| ==> m.index[cs[i].id] == -1
  {
    hide Process, Distinct, SetsPartition, Partition;
    var cs := u + v + w;
    if forall i :: 0 <= i < |cs| ==> m.index[cs[i].id] == -1 {
      ProcessMasked(m, compat, u, v, w);
      PartitionExactly(Masked(m, cs), compat, u, v, w);
      PartitionSets(Process(Masked(m, cs), compat, u, v, w), cs);
    } else {
      var i :| 0 <= i < |cs| && m.index[cs[i].id] != -1;
      ProcessIgnores(m, compat, u, v, w);
      MissingCluster(m.index, Process(m, compat, u, v, w), cs, i);
    }
  }

  lemma MissingCluster(before: seq<int>, m: Books, cs: seq<Cluster>, i: nat)
    requires Ignored(before, m) && i < |cs| && cs[i].id < |before| && before[cs[i].id] >= 0
    ensures !SetsPartition(m.sets, cs)
  {
    var id := cs[i].id;
    forall k | 0 <= k < |m.sets|
      ensures id !in m.sets[k]
    {
      assert forall p :: 0 <= p < |m.sets[k]| ==> before[m.sets[k][p]] < 0;
    }
  }

  // ----- runs that return nothing -----

  lemma {:induction false} RowStale(m: Books, compat: Compatible, cs: seq<Cluster>, i: nat, j: nat)
    requires m.sets == [] && i < |cs| && Known(cs, |m.index|) && AllPlaced(m, cs)
    ensures MergeRow(m, compat, cs, i, j) == m
    decreases |cs| - j
  {
    if j < |cs| {
      RowStale(m, compat, cs, i, j + 1);
    }
  }

  lemma {:induction false} RowsStale(m: Books, compat: Compatible, cs: seq<Cluster>, i: nat)
    requires m.sets == [] && Known(cs, |m.index|) && AllPlaced(m, cs)
    ensures MergeRows(m, compat, cs, i) == m
    decreases |cs| - i
  {
    if i < |cs| {
      RowStale(m, compat, cs, i, i + 1);
      RowsStale(m, compat, cs, i + 1);
    }
  }

  /** Sets are only added, and as long as there is none nothing is placed. */
  ghost predicate Grown(m: Books, m': Books) {
    |m'.index| == |m.index| && |m'.sets| >= |m.sets| && (m'.sets == [] ==> m'.index == m.index)
  }

  lemma {:induction false} RowGrows(m: Books, compat: Compatible, cs: seq<Cluster>, i: nat, j: nat)
    requires i < |cs| && Known(cs, |m.index|)
    ensures Grown(m, MergeRow(m, compat, cs, i, j))
    decreases |cs| - j
  {
    if j < |cs| {
      var m1 := BuildPair(m, compat, cs[i], cs[j]);
      assert Grown(m, m1);
      hide BuildPair;
      RowGrows(m1, compat, cs, i, j + 1);
    }
  }

  lemma {:induction false} RowsGrow(m: Books, compat: Compatible, cs: seq<Cluster>, i: nat)
    requires Known(cs, |m.index|)
    ensures Grown(m, MergeRows(m, compat, cs, i))
    decreases |cs| - i
  {
    if i < |cs| {
      RowGrows(m, compat, cs, i, i + 1);
      RowsGrow(MergeRow(m, compat, cs, i, i + 1), compat, cs, i + 1);
    }
  }

  lemma {:induction false} FinalizeGrows(m: Books, cs: seq<Cluster>, i: nat)
    requires Known(cs, |m.index|)
    ensures Grown(m, Finalize(m, cs, i))
    ensures Finalize(m, cs, i).sets == [] ==> forall k :: i <= k < |cs| ==> m.index[cs[k].id] >= 0
    decreases |cs| - i
  {
    if i < |cs| {
      var id := cs[i].id;
      FinalizeGrows(if m.index[id] < 0 then Append(m, id, -1) else m, cs, i + 1);
    }
  }

  /** A run returns no set at all exactly when every cluster of its input is marked as
      placed before it. */
  lemma NoSetsExactly(m: Books, compat: Compatible, u: seq<Cluster>, v: seq<Cluster>, w: seq<Cluster>)
    requires Known(u + v + w, |m.index|)
    ensures Process(m, compat, u, v, w).sets == [] <==> AllPlaced(m, u + v + w)
  {
    hide MergeRows, Finalize;
    var m0 := m.(sets := []);
    KnownParts(u, v, w, |m.index|);
    if AllPlaced(m, u + v + w) {
      PlacedParts(m0, u, v, w);
      RowsStale(m0, compat, u, 0);
      RowsStale(m0, compat, v, 0);
      RowsStale(m0, compat, w, 0);
      FinalizeStale(m0, u + v + w, 0);
    } else {
      RowsGrow(m0, compat, u, 0);
      var m1 := MergeRows(m0, compat, u, 0);
      RowsGrow(m1, compat, v, 0);
      RowsGrow(MergeRows(m1, compat, v, 0), compat, w, 0);
      FinalizeGrows(MergeAll(m, compat, u, v, w), u + v + w, 0);
    }
  }

  /** A second run on the same input finds every cluster placed already and returns no
      set at all, because the index is not cleared with the sets. */
  lemma SecondRunIsEmpty(m: Books, compat: Compatible, u: seq<Cluster>, v: seq<Cluster>, w: seq<Cluster>)
    requires Clean(m) && Known(u + v + w, |m.index|) && Distinct(u + v + w)
    ensures var m' := Process(m, compat, u, v, w);
            Process(m', compat, u, v, w).sets == []
  {
    hide Process;
    ProcessPartitions(m, compat, u, v, w);
    NoSetsExactly(Process(m, compat, u, v, w), compat, u, v, w);
  }

  lemma PlacedParts(m: Books, u: seq<Cluster>, v: seq<Cluster>, w: seq<Cluster>)
    requires Known(u + v + w, |m.index|) && AllPlaced(m, u + v + w)
    requires Known(u, |m.index|) && Known(v, |m.index|) && Known(w, |m.index|)
    ensures AllPlaced(m, u) && AllPlaced(m, v) && AllPlaced(m, w)
  {
    var all := u + v + w;
    assert forall i :: 0 <= i < |u| ==> all[i] == u[i];
    assert forall i :: 0 <= i < |v| ==> all[|u| + i] == v[i];
    assert forall i :: 0 <= i < |w| ==> all[|u| + |v| + i] == w[i];
  }
}
