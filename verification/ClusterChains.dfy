/** When all compatible clusters end together, told from the input alone. */
module ClusterChains {
  import opened ClusterBooks
  import opened ClusterMerge
  import opened ClusterOpeners

  // ----- chains of compatible clusters of one view -----

  predicate Linked(compat: Compatible, cs: seq<Cluster>, i: nat, j: nat)
    requires i < |cs| && j < |cs|
  {
    (i < j && compat(cs[i], cs[j])) || (j < i && compat(cs[j], cs[i]))
  }

  ghost predicate Chain(compat: Compatible, cs: seq<Cluster>, path: seq<nat>) {
    && path != []
    && (forall k :: 0 <= k < |path| ==> path[k] < |cs|)
    && (forall k :: 0 < k < |path| ==> Linked(compat, cs, path[k - 1], path[k]))
  }

  ghost predicate Joined(compat: Compatible, cs: seq<Cluster>, p: nat, q: nat) {
    exists path :: Chain(compat, cs, path) && path[0] == p && path[|path| - 1] == q
  }

  lemma JoinedSelf(compat: Compatible, cs: seq<Cluster>, p: nat)
    requires p < |cs|
    ensures Joined(compat, cs, p, p)
  {
    assert Chain(compat, cs, [p]);
  }

  lemma JoinedStep(compat: Compatible, cs: seq<Cluster>, p: nat, q: nat, r: nat)
    requires Joined(compat, cs, p, q) && q < |cs| && r < |cs| && Linked(compat, cs, q, r)
    ensures Joined(compat, cs, p, r)
  {
    hide Linked;
    var path :| Chain(compat, cs, path) && path[0] == p && path[|path| - 1] == q;
    assert Chain(compat, cs, path + [r]);
  }

  lemma {:induction false} JoinedOn(compat: Compatible, cs: seq<Cluster>, p: nat, q: nat, path: seq<nat>)
    requires Joined(compat, cs, p, q) && Chain(compat, cs, path) && path[0] == q
    ensures Joined(compat, cs, p, path[|path| - 1])
    decreases |path|
  {
    hide Linked, Joined;
    if |path| > 1 {
      var front := path[..|path| - 1];
      JoinedOn(compat, cs, p, q, front);
      JoinedStep(compat, cs, p, front[|front| - 1], path[|path| - 1]);
    }
  }

  lemma {:induction false} JoinedBack(compat: Compatible, cs: seq<Cluster>, path: seq<nat>)
    requires Chain(compat, cs, path)
    ensures Joined(compat, cs, path[|path| - 1], path[0])
    decreases |path|
  {
    hide Joined;
    if |path| == 1 {
      JoinedSelf(compat, cs, path[0]);
    } else {
      JoinedBack(compat, cs, path[1..]);
      assert Linked(compat, cs, path[0], path[1]);
      JoinedStep(compat, cs, path[|path| - 1], path[1], path[0]);
    }
  }

  /** From one end of two chains, over a link between their ends, back along the other. */
  lemma JoinedAcross(compat: Compatible, cs: seq<Cluster>, p: nat, i: nat, j: nat, q: nat)
    requires Joined(compat, cs, p, i) && Joined(compat, cs, q, j) && i < |cs| && j < |cs| && Linked(compat, cs, i, j)
    ensures Joined(compat, cs, p, q)
  {
    JoinedStep(compat, cs, p, i, j);
    var path :| Chain(compat, cs, path) && path[0] == q && path[|path| - 1] == j;
    JoinedBack(compat, cs, path);
    var back :| Chain(compat, cs, back) && back[0] == j && back[|back| - 1] == q;
    JoinedOn(compat, cs, p, j, back);
  }

  // ----- along a chain -----

  /** Linked clusters are all in one set. */
  ghost predicate Together(m: Books, links: Links) {
    forall x: (nat, nat) :: x in links ==>
      x.0 < |m.index| && x.1 < |m.index| && m.index[x.0] == m.index[x.1]
  }

  lemma LinkedIsLink(compat: Compatible, u: seq<Cluster>, v: seq<Cluster>, w: seq<Cluster>, cs: seq<Cluster>,
                     i: nat, j: nat)
    requires (cs == u || cs == v || cs == w) && i < |cs| && j < |cs| && Linked(compat, cs, i, j)
    ensures Touch(AllLinks(compat, u, v, w), cs[i].id, cs[j].id)
  {
    var a, b := if i < j then i else j, if i < j then j else i;
    var x := (cs[a].id, cs[b].id);
    assert PartnersAt(compat, cs, a, b, x);
    LinksExactly(compat, u, v, w, x);
  }

  lemma {:induction false} ChainTogether(m: Books, compat: Compatible, u: seq<Cluster>, v: seq<Cluster>,
                                         w: seq<Cluster>, cs: seq<Cluster>, path: seq<nat>)
    requires Together(m, AllLinks(compat, u, v, w)) && Known(cs, |m.index|)
    requires (cs == u || cs == v || cs == w) && Chain(compat, cs, path)
    ensures m.index[cs[path[0]].id] == m.index[cs[path[|path| - 1]].id]
    decreases |path|
  {
    hide AllLinks, Linked;
    if |path| > 1 {
      ChainTogether(m, compat, u, v, w, cs, path[1..]);
      LinkedIsLink(compat, u, v, w, cs, path[0], path[1]);
    }
  }

  /** An opener is the first cluster of the set it is in. */
  lemma OpenerFirst(m: Books, compat: Compatible, u: seq<Cluster>, v: seq<Cluster>, w: seq<Cluster>,
                    cs: seq<Cluster>, p: nat)
    requires Agree(m) && NoRepeats(m) && Firsts(m.sets) == AllOpeners(compat, u, v, w)
    requires (cs == u || cs == v || cs == w) && p < |cs| && Opener(compat, cs, p)
    ensures var id := cs[p].id;
            id < |m.index| && 0 <= m.index[id] < |m.sets| && m.sets[m.index[id]][0] == id
  {
    hide Opener;
    var id := cs[p].id;
    OpenerIdsAre(compat, cs, 0, id);
    assert id in AllOpeners(compat, u, v, w);
    assert id in Firsts(m.sets);
    var k :| 0 <= k < |m.sets| && Firsts(m.sets)[k] == id;
    assert m.sets[k][0] == id;
  }

  /** The first cluster of a set is an opener, of any view that lists it. */
  lemma FirstIsOpener(m: Books, compat: Compatible, u: seq<Cluster>, v: seq<Cluster>, w: seq<Cluster>,
                      cs: seq<Cluster>, k: nat, f: nat)
    requires NoRepeats(m) && Firsts(m.sets) == AllOpeners(compat, u, v, w) && Distinct(u + v + w)
    requires (cs == u || cs == v || cs == w) && k < |m.sets| && f < |cs| && cs[f].id == m.sets[k][0]
    ensures Opener(compat, cs, f)
  {
    hide Opener;
    var id := cs[f].id;
    assert Firsts(m.sets)[k] == id;
    OpenerIdsAre(compat, u, 0, id);
    OpenerIdsAre(compat, v, 0, id);
    OpenerIdsAre(compat, w, 0, id);
    var home := if id in OpenerIds(compat, u, 0) then u else if id in OpenerIds(compat, v, 0) then v else w;
    var g :| 0 <= g < |home| && Opener(compat, home, g) && home[g].id == id;
    assert Listed(home, id) && Listed(cs, id);
    SameId(u, v, w, home, cs, id);
    DistinctParts(u, v, w);
  }

  /** A link at a cluster of a view leads to a cluster of that view. */
  lemma LinkStays(compat: Compatible, u: seq<Cluster>, v: seq<Cluster>, w: seq<Cluster>, cs: seq<Cluster>,
                  other: nat, c: nat)
      returns (d: nat)
    requires Distinct(u + v + w) && (cs == u || cs == v || cs == w) && c < |cs|
    requires Touch(AllLinks(compat, u, v, w), other, cs[c].id)
    ensures d < |cs| && cs[d].id == other && Linked(compat, cs, d, c)
  {
    var x := if (other, cs[c].id) in AllLinks(compat, u, v, w) then (other, cs[c].id) else (cs[c].id, other);
    var home := Home(compat, u, v, w, x);
    LinksListed(compat, home, x);
    assert Listed(cs, cs[c].id);
    SameId(u, v, w, home, cs, cs[c].id);
    LinksOfIs(compat, cs, 0, x);
    var i, j :| 0 <= i < j < |cs| && PartnersAt(compat, cs, i, j, x);
    DistinctParts(u, v, w);
    d := if x.0 == other && x.1 == cs[c].id then i else j;
  }

  /** Every member of a set is joined to its first. */
  lemma {:induction false} MemberJoined(m: Books, compat: Compatible, u: seq<Cluster>, v: seq<Cluster>, w: seq<Cluster>,
                                        cs: seq<Cluster>, k: nat, p: nat, c: nat) returns (f: nat)
    requires Connected(m, AllLinks(compat, u, v, w)) && Distinct(u + v + w) && (cs == u || cs == v || cs == w)
    requires k < |m.sets| && p < |m.sets[k]| && c < |cs| && cs[c].id == m.sets[k][p]
    ensures f < |cs| && cs[f].id == m.sets[k][0] && Joined(compat, cs, f, c)
    decreases p
  {
    hide AllLinks, Linked, Joined, Distinct;
    if p == 0 {
      f := c;
      JoinedSelf(compat, cs, c);
    } else {
      assert HasEarlier(AllLinks(compat, u, v, w), m.sets[k], p);
      var q :| 0 <= q < p && Touch(AllLinks(compat, u, v, w), m.sets[k][q], m.sets[k][p]);
      var d := LinkStays(compat, u, v, w, cs, m.sets[k][q], c);
      f := MemberJoined(m, compat, u, v, w, cs, k, q, d);
      JoinedStep(compat, cs, f, d, c);
    }
  }

  // ----- the condition -----

  /** No two openers of the view are joined by a chain. */
  ghost predicate OpenersApart(compat: Compatible, cs: seq<Cluster>) {
    forall p, q :: 0 <= p < |cs| && 0 <= q < |cs| && p != q && Opener(compat, cs, p) && Opener(compat, cs, q) ==>
      !Joined(compat, cs, p, q)
  }

  lemma TogetherApart(m: Books, compat: Compatible, u: seq<Cluster>, v: seq<Cluster>, w: seq<Cluster>, cs: seq<Cluster>)
    requires Agree(m) && NoRepeats(m) && Firsts(m.sets) == AllOpeners(compat, u, v, w)
    requires Distinct(u + v + w) && (cs == u || cs == v || cs == w) && Known(cs, |m.index|)
    requires Together(m, AllLinks(compat, u, v, w))
    ensures OpenersApart(compat, cs)
  {
    hide Opener, AllLinks, Linked, Together, AllOpeners, Agree, NoRepeats, Firsts;
    DistinctParts(u, v, w);
    forall p, q | 0 <= p < |cs| && 0 <= q < |cs| && p != q && Opener(compat, cs, p) && Opener(compat, cs, q)
      ensures !Joined(compat, cs, p, q)
    {
      OpenerFirst(m, compat, u, v, w, cs, p);
      OpenerFirst(m, compat, u, v, w, cs, q);
      forall path | Chain(compat, cs, path) && path[0] == p
        ensures path[|path| - 1] != q
      {
        ChainTogether(m, compat, u, v, w, cs, path);
      }
    }
  }

  lemma ApartTogether(m: Books, compat: Compatible, u: seq<Cluster>, v: seq<Cluster>, w: seq<Cluster>, x: (nat, nat))
    requires Building(m, AllLinks(compat, u, v, w)) && Firsts(m.sets) == AllOpeners(compat, u, v, w)
    requires Distinct(u + v + w) && x in AllLinks(compat, u, v, w)
    requires OpenersApart(compat, u) && OpenersApart(compat, v) && OpenersApart(compat, w)
    ensures x.0 < |m.index| && x.1 < |m.index| && m.index[x.0] == m.index[x.1]
  {
    hide Opener, Joined, AllOpeners, Firsts, Distinct, LinksOf;
    var cs := Home(compat, u, v, w, x);
    LinksOfIs(compat, cs, 0, x);
    var i, j :| 0 <= i < j < |cs| && PartnersAt(compat, cs, i, j, x);
    var ka, kb := m.index[x.0], m.index[x.1];
    var pa :| 0 <= pa < |m.sets[ka]| && m.sets[ka][pa] == x.0;
    var pb :| 0 <= pb < |m.sets[kb]| && m.sets[kb][pb] == x.1;
    var fa := MemberJoined(m, compat, u, v, w, cs, ka, pa, i);
    var fb := MemberJoined(m, compat, u, v, w, cs, kb, pb, j);
    FirstIsOpener(m, compat, u, v, w, cs, ka, fa);
    FirstIsOpener(m, compat, u, v, w, cs, kb, fb);
    JoinedAcross(compat, cs, fa, i, j, fb);
    assert fa == fb;
    assert m.index[m.sets[ka][0]] == ka && m.index[m.sets[kb][0]] == kb;
  }

  /** All compatible clusters end together, and there is no complaint, exactly when no two
      openers of a view are joined by a chain of compatible pairs. */
  lemma TogetherExactly(m: Books, compat: Compatible, u: seq<Cluster>, v: seq<Cluster>, w: seq<Cluster>)
    requires Clean(m) && Known(u + v + w, |m.index|) && Distinct(u + v + w)
    ensures var m' := Process(m, compat, u, v, w);
            var apart := OpenersApart(compat, u) && OpenersApart(compat, v) && OpenersApart(compat, w);
            && (Together(m', AllLinks(compat, u, v, w)) <==> apart)
            && (m'.conflicts == [] <==> apart)
  {
    hide Process, AllLinks, OpenersApart, Distinct, Known;
    ConflictsExactly(m, compat, u, v, w);
    NoComplaintExactly(m, compat, u, v, w);
  }

  lemma NoComplaintExactly(m: Books, compat: Compatible, u: seq<Cluster>, v: seq<Cluster>, w: seq<Cluster>)
    requires Clean(m) && Known(u + v + w, |m.index|) && Distinct(u + v + w)
    ensures Process(m, compat, u, v, w).conflicts == [] <==>
            OpenersApart(compat, u) && OpenersApart(compat, v) && OpenersApart(compat, w)
  {
    hide Process, MergeAll, Finalize, AllLinks, AllOpeners, OpenersApart, Distinct, Firsts, Known;
    var links := AllLinks(compat, u, v, w);
    var m1 := MergeAll(m, compat, u, v, w);
    MergeKeeps(m, compat, u, v, w);
    MergeFirsts(m, compat, u, v, w);
    FinalizeCompletes(m1, links, u + v + w, 0);
    ProcessIs(m, compat, u, v, w);
    KnownParts(u, v, w, |m.index|);
    if m1.conflicts == [] {
      assert Together(m1, links);
      TogetherApart(m1, compat, u, v, w, u);
      TogetherApart(m1, compat, u, v, w, v);
      TogetherApart(m1, compat, u, v, w, w);
    } else if OpenersApart(compat, u) && OpenersApart(compat, v) && OpenersApart(compat, w) {
      var x := m1.conflicts[0];
      assert x in m1.conflicts;
      ApartTogether(m1, compat, u, v, w, x);
      assert false;
    }
  }
}
