/** The merging run over all pairs of clusters of each view, and what its result is. */
module ClusterMerge {
  import opened ClusterBooks

  datatype Cluster = Cluster(id: nat, startWire: real, startTime: real, endWire: real, endTime: real, angle: real)

  /** `CompareClusters`. */
  type Compatible = (Cluster, Cluster) -> bool

  predicate Known(cs: seq<Cluster>, size: nat) { forall i :: 0 <= i < |cs| ==> cs[i].id < size }

  predicate Distinct(cs: seq<Cluster>) { forall i, j :: 0 <= i < j < |cs| ==> cs[i].id != cs[j].id }

  // ----- the run as a function -----

  function BuildPair(m: Books, compat: Compatible, a: Cluster, b: Cluster): (r: Books)
    requires a.id < |m.index| && b.id < |m.index|
    ensures |r.index| == |m.index|
  {
    if compat(a, b) then Build(m, a.id, b.id) else m
  }

  /** Cluster `i` against the clusters from `j` on. */
  function MergeRow(m: Books, compat: Compatible, cs: seq<Cluster>, i: nat, j: nat): (r: Books)
    requires i < |cs| && Known(cs, |m.index|)
    ensures |r.index| == |m.index|
    decreases |cs| - j
  {
    if j >= |cs| then m else MergeRow(BuildPair(m, compat, cs[i], cs[j]), compat, cs, i, j + 1)
  }

  function MergeRows(m: Books, compat: Compatible, cs: seq<Cluster>, i: nat): (r: Books)
    requires Known(cs, |m.index|)
    ensures |r.index| == |m.index|
    decreases |cs| - i
  {
    if i >= |cs| then m else MergeRows(MergeRow(m, compat, cs, i, i + 1), compat, cs, i + 1)
  }

  /** `FinalizeClusterSets` on one view, from cluster `i` on. */
  function Finalize(m: Books, cs: seq<Cluster>, i: nat): (r: Books)
    requires Known(cs, |m.index|)
    ensures |r.index| == |m.index|
    decreases |cs| - i
  {
    if i >= |cs| then m
    else if m.index[cs[i].id] < 0 then Finalize(Append(m, cs[i].id, -1), cs, i + 1)
    else Finalize(m, cs, i + 1)
  }

  function MergeAll(m: Books, compat: Compatible, u: seq<Cluster>, v: seq<Cluster>, w: seq<Cluster>): (r: Books)
    requires Known(u + v + w, |m.index|)
    ensures |r.index| == |m.index|
  {
    assert Known(u, |m.index|) && Known(v, |m.index|) && Known(w, |m.index|) by { KnownParts(u, v, w, |m.index|); }
    var m1 := MergeRows(m.(sets := []), compat, u, 0);
    var m2 := MergeRows(m1, compat, v, 0);
    MergeRows(m2, compat, w, 0)
  }

  lemma KnownParts(u: seq<Cluster>, v: seq<Cluster>, w: seq<Cluster>, size: nat)
    requires Known(u + v + w, size)
    ensures Known(u, size) && Known(v, size) && Known(w, size)
  {
    forall i | 0 <= i < |u|
      ensures u[i].id < size
    {
      assert (u + v + w)[i] == u[i];
    }
    forall i | 0 <= i < |v|
      ensures v[i].id < size
    {
      assert (u + v + w)[|u| + i] == v[i];
    }
    forall i | 0 <= i < |w|
      ensures w[i].id < size
    {
      assert (u + v + w)[|u| + |v| + i] == w[i];
    }
  }

  /** `ProcessMergeAlg`: the output is cleared, the index is not. */
  function Process(m: Books, compat: Compatible, u: seq<Cluster>, v: seq<Cluster>, w: seq<Cluster>): (r: Books)
    requires Known(u + v + w, |m.index|)
    ensures |r.index| == |m.index|
  {
    Finalize(MergeAll(m, compat, u, v, w), u + v + w, 0)
  }

  // ----- the links -----

  /** The compatible pairs among those compared. */
  function LinksRow(compat: Compatible, cs: seq<Cluster>, i: nat, j: nat): Links
    requires i < |cs|
    decreases |cs| - j
  {
    if j >= |cs| then {}
    else (if compat(cs[i], cs[j]) then {(cs[i].id, cs[j].id)} else {}) + LinksRow(compat, cs, i, j + 1)
  }

  function LinksOf(compat: Compatible, cs: seq<Cluster>, i: nat): Links
    decreases |cs| - i
  {
    if i >= |cs| then {} else LinksRow(compat, cs, i, i + 1) + LinksOf(compat, cs, i + 1)
  }

  function AllLinks(compat: Compatible, u: seq<Cluster>, v: seq<Cluster>, w: seq<Cluster>): Links
  {
    LinksOf(compat, u, 0) + LinksOf(compat, v, 0) + LinksOf(compat, w, 0)
  }

  /** Two clusters of one view, compared as `i` before `j`, that are compatible. */
  ghost predicate Partners(compat: Compatible, cs: seq<Cluster>, x: (nat, nat)) {
    exists i, j :: 0 <= i < j < |cs| && PartnersAt(compat, cs, i, j, x)
  }

  predicate PartnersAt(compat: Compatible, cs: seq<Cluster>, i: nat, j: nat, x: (nat, nat))
    requires i < |cs| && j < |cs|
  {
    compat(cs[i], cs[j]) && x == (cs[i].id, cs[j].id)
  }

  lemma {:induction false} LinksRowIs(compat: Compatible, cs: seq<Cluster>, i: nat, j: nat, x: (nat, nat))
    requires i < |cs|
    ensures x in LinksRow(compat, cs, i, j) <==> exists k :: j <= k < |cs| && PartnersAt(compat, cs, i, k, x)
    decreases |cs| - j
  {
    if j < |cs| {
      LinksRowIs(compat, cs, i, j + 1, x);
      if x in LinksRow(compat, cs, i, j) && x !in LinksRow(compat, cs, i, j + 1) {
        assert PartnersAt(compat, cs, i, j, x);
      }
    }
  }

  lemma {:induction false} LinksOfIs(compat: Compatible, cs: seq<Cluster>, i: nat, x: (nat, nat))
    ensures x in LinksOf(compat, cs, i) <==>
            exists p, q :: i <= p < q < |cs| && PartnersAt(compat, cs, p, q, x)
    decreases |cs| - i
  {
    if i < |cs| {
      LinksOfIs(compat, cs, i + 1, x);
      LinksRowIs(compat, cs, i, i + 1, x);
    }
  }

  // ----- every step keeps the books -----

  lemma {:induction false} RowKeeps(m: Books, links: Links, compat: Compatible, cs: seq<Cluster>, i: nat, j: nat)
    requires Building(m, links) && i < |cs| && i < j && Known(cs, |m.index|) && Distinct(cs)
    ensures Building(MergeRow(m, compat, cs, i, j), links + LinksRow(compat, cs, i, j))
    decreases |cs| - j
  {
    hide Building, Build;
    if j < |cs| {
      var pair: Links := if compat(cs[i], cs[j]) then {(cs[i].id, cs[j].id)} else {};
      if compat(cs[i], cs[j]) {
        BuildKeeps(m, links, cs[i].id, cs[j].id);
      } else {
        assert links + pair == links;
      }
      RowKeeps(BuildPair(m, compat, cs[i], cs[j]), links + pair, compat, cs, i, j + 1);
      assert links + pair + LinksRow(compat, cs, i, j + 1) == links + LinksRow(compat, cs, i, j);
    } else {
      assert links + {} == links;
    }
  }

  lemma {:induction false} RowsKeep(m: Books, links: Links, compat: Compatible, cs: seq<Cluster>, i: nat)
    requires Building(m, links) && Known(cs, |m.index|) && Distinct(cs)
    ensures Building(MergeRows(m, compat, cs, i), links + LinksOf(compat, cs, i))
    decreases |cs| - i
  {
    hide Building;
    if i < |cs| {
      var row := LinksRow(compat, cs, i, i + 1);
      RowKeeps(m, links, compat, cs, i, i + 1);
      RowsKeep(MergeRow(m, compat, cs, i, i + 1), links + row, compat, cs, i + 1);
      assert links + row + LinksOf(compat, cs, i + 1) == links + LinksOf(compat, cs, i);
    } else {
      assert links + {} == links;
    }
  }

  /** Nothing grouped yet. */
  ghost predicate Clean(m: Books) {
    m.conflicts == [] && forall c :: 0 <= c < |m.index| ==> m.index[c] == -1
  }

  lemma DistinctParts(u: seq<Cluster>, v: seq<Cluster>, w: seq<Cluster>)
    requires Distinct(u + v + w)
    ensures Distinct(u) && Distinct(v) && Distinct(w)
  {
    var all := u + v + w;
    assert forall i :: 0 <= i < |u| ==> all[i] == u[i];
    assert forall i :: 0 <= i < |v| ==> all[|u| + i] == v[i];
    assert forall i :: 0 <= i < |w| ==> all[|u| + |v| + i] == w[i];
  }

  lemma MergeKeeps(m: Books, compat: Compatible, u: seq<Cluster>, v: seq<Cluster>, w: seq<Cluster>)
    requires Clean(m) && Known(u + v + w, |m.index|) && Distinct(u + v + w)
    ensures Building(MergeAll(m, compat, u, v, w), AllLinks(compat, u, v, w))
  {
    var m0 := m.(sets := []);
    assert Building(m0, {});
    hide Building;
    KnownParts(u, v, w, |m.index|);
    DistinctParts(u, v, w);
    RowsKeep(m0, {}, compat, u, 0);
    var m1 := MergeRows(m0, compat, u, 0);
    var l1 := {} + LinksOf(compat, u, 0);
    RowsKeep(m1, l1, compat, v, 0);
    var m2 := MergeRows(m1, compat, v, 0);
    RowsKeep(m2, l1 + LinksOf(compat, v, 0), compat, w, 0);
    assert l1 + LinksOf(compat, v, 0) + LinksOf(compat, w, 0) == AllLinks(compat, u, v, w);
  }

  // ----- the clusters that were left over -----

  /** `m'` extends `m` by sets of one, for clusters of `cs` that had none. */
  ghost predicate Completed(m: Books, m': Books, cs: seq<Cluster>) {
    && m.sets <= m'.sets && m'.conflicts == m.conflicts && |m'.index| == |m.index|
    && (forall c :: 0 <= c < |m.index| && m.index[c] >= 0 ==> m'.index[c] == m.index[c])
    && (forall k :: |m.sets| <= k < |m'.sets| ==> |m'.sets[k]| == 1)
    && (forall c :: 0 <= c < |m.index| && m.index[c] < 0 && m'.index[c] >= 0 ==>
          m'.index[c] >= |m.sets| && exists i :: 0 <= i < |cs| && cs[i].id == c)
  }

  lemma CompletedSelf(m: Books, cs: seq<Cluster>)
    ensures Completed(m, m, cs)
  {
  }

  lemma CompletedKeeps(m: Books, m2: Books, cs: seq<Cluster>, id: nat)
    requires Completed(m, m2, cs) && id < |m.index| && m.index[id] >= 0
    ensures m2.index[id] == m.index[id]
  {
  }

  lemma CompletedStep(m: Books, m2: Books, cs: seq<Cluster>, i: nat)
    requires Known(cs, |m.index|) && i < |cs| && m.index[cs[i].id] < 0
    requires var id := cs[i].id;
             Completed(m.(index := m.index[id := |m.sets|], sets := m.sets + [[id]]), m2, cs)
    ensures Completed(m, m2, cs) && m2.index[cs[i].id] >= 0
  {
    var id := cs[i].id;
    var m1 := m.(index := m.index[id := |m.sets|], sets := m.sets + [[id]]);
    assert m1.index[id] == |m.sets|;
    assert m2.sets[|m.sets|] == [id];
  }

  lemma {:induction false} FinalizeCompletes(m: Books, links: Links, cs: seq<Cluster>, i: nat)
    requires Agree(m) && NoRepeats(m) && Connected(m, links) && Known(cs, |m.index|)
    ensures var m' := Finalize(m, cs, i);
            && Agree(m') && NoRepeats(m') && Connected(m', links) && Completed(m, m', cs)
            && (forall k :: i <= k < |cs| ==> m'.index[cs[k].id] >= 0)
    decreases |cs| - i
  {
    hide Connected, NoRepeats, Agree, Completed, Append;
    CompletedSelf(m, cs);
    if i < |cs| {
      var id := cs[i].id;
      if m.index[id] < 0 {
        OpenSet(m, links, id);
        FinalizeCompletes(Append(m, id, -1), links, cs, i + 1);
        CompletedStep(m, Finalize(m, cs, i), cs, i);
      } else {
        FinalizeCompletes(m, links, cs, i + 1);
        CompletedKeeps(m, Finalize(m, cs, i), cs, id);
      }
    }
  }

  // ----- the result -----

  ghost predicate Listed(cs: seq<Cluster>, id: nat) { exists i :: 0 <= i < |cs| && cs[i].id == id }

  /** The sets partition the input clusters, and the index says where each one is. */
  ghost predicate Partition(m: Books, cs: seq<Cluster>) {
    && Agree(m) && NoRepeats(m) && Known(cs, |m.index|)
    && (forall i :: 0 <= i < |cs| ==> 0 <= m.index[cs[i].id] < |m.sets|)
    && (forall k, p :: 0 <= k < |m.sets| && 0 <= p < |m.sets[k]| ==> Listed(cs, m.sets[k][p]))
  }

  lemma LinksListed(compat: Compatible, cs: seq<Cluster>, x: (nat, nat))
    requires x in LinksOf(compat, cs, 0)
    ensures Listed(cs, x.0) && Listed(cs, x.1)
  {
    LinksOfIs(compat, cs, 0, x);
  }

  lemma ListedInAll(u: seq<Cluster>, v: seq<Cluster>, w: seq<Cluster>, part: seq<Cluster>, id: nat)
    requires (part == u || part == v || part == w) && Listed(part, id)
    ensures Listed(u + v + w, id)
  {
    var i :| 0 <= i < |part| && part[i].id == id;
    var before := if part == u then 0 else if part == v then |u| else |u| + |v|;
    assert (u + v + w)[before + i] == part[i];
  }

  lemma LinkedListed(compat: Compatible, u: seq<Cluster>, v: seq<Cluster>, w: seq<Cluster>, x: (nat, nat))
    requires x in AllLinks(compat, u, v, w)
    ensures Listed(u + v + w, x.0) && Listed(u + v + w, x.1)
  {
    hide Listed;
    var home := Home(compat, u, v, w, x);
    LinksListed(compat, home, x);
    ListedInAll(u, v, w, home, x.0);
    ListedInAll(u, v, w, home, x.1);
  }

  /** The view in which a link was found. */
  function Home(compat: Compatible, u: seq<Cluster>, v: seq<Cluster>, w: seq<Cluster>, x: (nat, nat)): (r: seq<Cluster>)
    requires x in AllLinks(compat, u, v, w)
    ensures (r == u || r == v || r == w) && x in LinksOf(compat, r, 0)
  {
    if x in LinksOf(compat, u, 0) then u else if x in LinksOf(compat, v, 0) then v else w
  }

  /** The links are the compatible pairs within a view, and nothing else. */
  lemma LinksExactly(compat: Compatible, u: seq<Cluster>, v: seq<Cluster>, w: seq<Cluster>, x: (nat, nat))
    ensures x in AllLinks(compat, u, v, w)
            <==> Partners(compat, u, x) || Partners(compat, v, x) || Partners(compat, w, x)
  {
    LinksOfIs(compat, u, 0, x);
    LinksOfIs(compat, v, 0, x);
    LinksOfIs(compat, w, 0, x);
  }

  /** While sets are built, every member touches another cluster. */
  lemma MemberTouches(m: Books, links: Links, c: nat)
    requires Building(m, links) && c < |m.index| && m.index[c] >= 0
    ensures exists d: nat :: Touch(links, c, d)
  {
    var s := m.sets[m.index[c]];
    var p :| 0 <= p < |s| && s[p] == c;
    if p > 0 {
      assert HasEarlier(links, s, p);
      var q :| 0 <= q < p && Touch(links, s[q], s[p]);
      assert Touch(links, c, s[q]);
    } else {
      assert |s| >= 2;
      assert HasEarlier(links, s, 1);
      assert Touch(links, s[0], s[1]);
    }
  }

  /** Whether a cluster has a compatible partner among those it is compared with. */
  ghost predicate HasPartner(compat: Compatible, u: seq<Cluster>, v: seq<Cluster>, w: seq<Cluster>, id: nat) {
    exists d: nat :: Touch(AllLinks(compat, u, v, w), id, d)
  }

  /** From clean books, the run yields a partition of all clusters. */
  lemma ProcessPartitions(m: Books, compat: Compatible, u: seq<Cluster>, v: seq<Cluster>, w: seq<Cluster>)
    requires Clean(m) && Known(u + v + w, |m.index|) && Distinct(u + v + w)
    ensures var m' := Process(m, compat, u, v, w);
            Partition(m', u + v + w) && Connected(m', AllLinks(compat, u, v, w))
  {
    hide Process, MergeAll, Finalize, AllLinks;
    var links, cs := AllLinks(compat, u, v, w), u + v + w;
    var m1 := MergeAll(m, compat, u, v, w);
    var m' := Process(m, compat, u, v, w);
    MergeKeeps(m, compat, u, v, w);
    FinalizeCompletes(m1, links, cs, 0);
    ProcessIs(m, compat, u, v, w);
    forall k, p | 0 <= k < |m'.sets| && 0 <= p < |m'.sets[k]|
      ensures Listed(cs, m'.sets[k][p])
    {
      var c := m'.sets[k][p];
      if m1.index[c] >= 0 {
        MemberTouches(m1, links, c);
        var d: nat :| Touch(links, c, d);
        var x := if (c, d) in links then (c, d) else (d, c);
        LinkedListed(compat, u, v, w, x);
      }
    }
  }

  lemma ProcessIs(m: Books, compat: Compatible, u: seq<Cluster>, v: seq<Cluster>, w: seq<Cluster>)
    requires Known(u + v + w, |m.index|)
    ensures Process(m, compat, u, v, w) == Finalize(MergeAll(m, compat, u, v, w), u + v + w, 0)
  {
  }

  lemma AllLinkedPlaced(m: Books, links: Links, id: nat)
    requires Building(m, links) && id < |m.index| && m.index[id] < 0
    ensures !exists d: nat :: Touch(links, id, d)
  {
    forall d: nat
      ensures !Touch(links, id, d)
    {
      var x, y := (id, d), (d, id);
    }
  }

  /** A cluster ends alone exactly when it has no compatible partner. */
  lemma AloneExactly(m: Books, compat: Compatible, u: seq<Cluster>, v: seq<Cluster>, w: seq<Cluster>, i: nat)
    requires Clean(m) && Known(u + v + w, |m.index|) && Distinct(u + v + w) && i < |u + v + w|
    ensures var m' := Process(m, compat, u, v, w);
            var id := (u + v + w)[i].id;
            0 <= m'.index[id] < |m'.sets|
            && (m'.sets[m'.index[id]] == [id] <==> !HasPartner(compat, u, v, w, id))
  {
    hide Process, MergeAll, Finalize, AllLinks;
    var links, cs := AllLinks(compat, u, v, w), u + v + w;
    var id := cs[i].id;
    var m1 := MergeAll(m, compat, u, v, w);
    var m' := Process(m, compat, u, v, w);
    MergeKeeps(m, compat, u, v, w);
    FinalizeCompletes(m1, links, cs, 0);
    ProcessIs(m, compat, u, v, w);
    if m1.index[id] >= 0 {
      MemberTouches(m1, links, id);
      assert m'.sets[m'.index[id]] == m1.sets[m1.index[id]];
    } else {
      AllLinkedPlaced(m1, links, id);
      var s := m'.sets[m'.index[id]];
      assert |s| == 1 && id in s;
    }
  }

  /** The complaints are exactly the compatible pairs left in different sets; so all
      compatible clusters end together exactly when there is no complaint. */
  lemma ConflictsExactly(m: Books, compat: Compatible, u: seq<Cluster>, v: seq<Cluster>, w: seq<Cluster>)
    requires Clean(m) && Known(u + v + w, |m.index|) && Distinct(u + v + w)
    ensures var m' := Process(m, compat, u, v, w);
            var links := AllLinks(compat, u, v, w);
            && (forall x: (nat, nat) :: x in links ==> x.0 < |m'.index| && x.1 < |m'.index|)
            && (forall x: (nat, nat) :: x in m'.conflicts <==> x in links && m'.index[x.0] != m'.index[x.1])
            && (m'.conflicts == [] <==> forall x: (nat, nat) :: x in links ==> m'.index[x.0] == m'.index[x.1])
  {
    hide Process, MergeAll, Finalize, AllLinks;
    var links, cs := AllLinks(compat, u, v, w), u + v + w;
    var m1 := MergeAll(m, compat, u, v, w);
    var m' := Process(m, compat, u, v, w);
    MergeKeeps(m, compat, u, v, w);
    FinalizeCompletes(m1, links, cs, 0);
    ProcessIs(m, compat, u, v, w);
    if m'.conflicts != [] {
      assert m'.conflicts[0] in m'.conflicts;
    }
  }

  // ----- one view per set -----

  lemma {:induction false} SetInView(m: Books, compat: Compatible, u: seq<Cluster>, v: seq<Cluster>, w: seq<Cluster>,
                                     view: seq<Cluster>, k: nat, p: nat)
    requires Distinct(u + v + w) && (view == u || view == v || view == w)
    requires Connected(m, AllLinks(compat, u, v, w)) && k < |m.sets| && p < |m.sets[k]|
    ensures Listed(view, m.sets[k][0]) <==> Listed(view, m.sets[k][p])
    decreases p
  {
    var links := AllLinks(compat, u, v, w);
    if p > 0 {
      hide AllLinks, Distinct;
      var s := m.sets[k];
      assert HasEarlier(links, s, p);
      var q :| 0 <= q < p && Touch(links, s[q], s[p]);
      SetInView(m, compat, u, v, w, view, k, q);
      var x := if (s[q], s[p]) in links then (s[q], s[p]) else (s[p], s[q]);
      LinkInOneView(compat, u, v, w, view, x);
    }
  }

  lemma LinkInOneView(compat: Compatible, u: seq<Cluster>, v: seq<Cluster>, w: seq<Cluster>,
                      view: seq<Cluster>, x: (nat, nat))
    requires Distinct(u + v + w) && (view == u || view == v || view == w)
    requires x in AllLinks(compat, u, v, w)
    ensures Listed(view, x.0) <==> Listed(view, x.1)
  {
    hide Listed, Distinct;
    var home := Home(compat, u, v, w, x);
    LinksListed(compat, home, x);
    if Listed(view, x.0) {
      SameId(u, v, w, home, view, x.0);
    }
    if Listed(view, x.1) {
      SameId(u, v, w, home, view, x.1);
    }
  }

  /** Each set lies in one view: a view that holds its first cluster holds all of it,
      and a view that does not holds none. */
  lemma OneView(m: Books, compat: Compatible, u: seq<Cluster>, v: seq<Cluster>, w: seq<Cluster>,
                view: seq<Cluster>, k: nat, p: nat)
    requires Clean(m) && Known(u + v + w, |m.index|) && Distinct(u + v + w)
    requires view == u || view == v || view == w
    requires k < |Process(m, compat, u, v, w).sets| && p < |Process(m, compat, u, v, w).sets[k]|
    ensures var s := Process(m, compat, u, v, w).sets[k];
            Listed(view, s[0]) <==> Listed(view, s[p])
  {
    hide Process;
    ProcessPartitions(m, compat, u, v, w);
    SetInView(Process(m, compat, u, v, w), compat, u, v, w, view, k, p);
  }

  /** A cluster listed in two of the views makes them one. */
  lemma SameId(u: seq<Cluster>, v: seq<Cluster>, w: seq<Cluster>, a: seq<Cluster>, b: seq<Cluster>, id: nat)
    requires Distinct(u + v + w) && (a == u || a == v || a == w) && (b == u || b == v || b == w)
    requires Listed(a, id) && Listed(b, id)
    ensures a == b
  {
    var i :| 0 <= i < |a| && a[i].id == id;
    var j :| 0 <= j < |b| && b[j].id == id;
    var all := u + v + w;
    var da := if a == u then 0 else if a == v then |u| else |u| + |v|;
    var db := if b == u then 0 else if b == v then |u| else |u| + |v|;
    assert all[da + i] == a[i] && all[db + j] == b[j];
  }

  // ----- clusters placed already -----

  ghost predicate AllPlaced(m: Books, cs: seq<Cluster>)
    requires Known(cs, |m.index|)
  {
    forall i :: 0 <= i < |cs| ==> m.index[cs[i].id] >= 0
  }

  lemma {:induction false} FinalizeStale(m: Books, cs: seq<Cluster>, i: nat)
    requires Known(cs, |m.index|) && AllPlaced(m, cs)
    ensures Finalize(m, cs, i) == m
    decreases |cs| - i
  {
    if i < |cs| {
      FinalizeStale(m, cs, i + 1);
    }
  }

  // ----- compatible clusters left apart -----

  function Chain(a: Cluster, b: Cluster): bool {
    (a.id, b.id) in {(0, 2), (1, 3), (2, 3)}
  }

  function Numbered(id: nat): Cluster { Cluster(id, 0.0, 0.0, 0.0, 0.0, 0.0) }

  /** Transitive closure is not reached: 0-2, 1-3 and 2-3 are compatible, but 0, 2 and
      1, 3 end in different sets, with a complaint about 2 and 3. */
  lemma LeftApart()
    ensures var cs := [Numbered(0), Numbered(1), Numbered(2), Numbered(3)];
            var r := Process(Books([-1, -1, -1, -1], [], []), Chain, cs, [], []);
            r.sets == [[0, 2], [1, 3]] && r.conflicts == [(2, 3)]
  {
    var cs := [Numbered(0), Numbered(1), Numbered(2), Numbered(3)];
    var m0 := Books([-1, -1, -1, -1], [], []);
    var m1 := Books([0, -1, 0, -1], [[0, 2]], []);
    var m2 := Books([0, 1, 0, 1], [[0, 2], [1, 3]], []);
    var m3 := Books([0, 1, 0, 1], [[0, 2], [1, 3]], [(2, 3)]);
    FirstPair();
    RowStep(m0, cs, 0, 1);
    RowStep(m0, cs, 0, 2);
    RowStep(m1, cs, 0, 3);
    NextPair();
    RowStep(m1, cs, 1, 2);
    RowStep(m1, cs, 1, 3);
    assert MergeRow(m2, Chain, cs, 2, 3) == m3;
    assert MergeRow(m3, Chain, cs, 3, 4) == m3;
    assert MergeRows(m0, Chain, cs, 0) == m3;
    assert cs + [] + [] == cs;
    AllStay(m3, cs);
  }

  lemma FirstPair()
    ensures Build(Books([-1, -1, -1, -1], [], []), 0, 2) == Books([0, -1, 0, -1], [[0, 2]], [])
  {
    var m0 := Books([-1, -1, -1, -1], [], []);
    var one := Append(m0, 0, -1);
    assert one.index == [0, -1, -1, -1] && one.sets == [[0]];
    var two := Append(one, 2, 0);
    assert two.index == [0, -1, 0, -1];
    assert two.sets[0] == [0] + [2] == [0, 2];
  }

  lemma NextPair()
    ensures Build(Books([0, -1, 0, -1], [[0, 2]], []), 1, 3) == Books([0, 1, 0, 1], [[0, 2], [1, 3]], [])
  {
    var m1 := Books([0, -1, 0, -1], [[0, 2]], []);
    var one := Append(m1, 1, -1);
    assert one.index == [0, 1, 0, -1] && one.sets == [[0, 2], [1]];
    var two := Append(one, 3, 1);
    assert two.index == [0, 1, 0, 1];
    assert two.sets[0] == [0, 2] && two.sets[1] == [1] + [3] == [1, 3];
  }

  lemma RowStep(m: Books, cs: seq<Cluster>, i: nat, j: nat)
    requires i < |cs| && j < |cs| && Known(cs, |m.index|)
    ensures MergeRow(m, Chain, cs, i, j) == MergeRow(BuildPair(m, Chain, cs[i], cs[j]), Chain, cs, i, j + 1)
    ensures j + 1 == |cs| ==> MergeRow(m, Chain, cs, i, j) == BuildPair(m, Chain, cs[i], cs[j])
  {
  }

  lemma AllStay(m: Books, cs: seq<Cluster>)
    requires Known(cs, |m.index|) && AllPlaced(m, cs)
    ensures MergeRows(m, Chain, [], 0) == m && Finalize(m, cs, 0) == m
  {
    FinalizeStale(m, cs, 0);
  }
}
