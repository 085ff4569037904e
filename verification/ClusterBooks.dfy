/** Grouping compatible clusters: the list of sets, the index kept beside it, and the
    complaints about compatible clusters found in different sets. */
module ClusterBooks {

  /** `index[c]` is the set that holds cluster `c`, or negative. */
  datatype Books = Books(index: seq<int>, sets: seq<seq<nat>>, conflicts: seq<(nat, nat)>)

  function Append(m: Books, id: nat, into: int): Books
    requires id < |m.index|
  {
    if m.index[id] >= 0 then m
    else if into < 0 then m.(index := m.index[id := |m.sets|], sets := m.sets + [[id]])
    else if into < |m.sets| then
      m.(index := m.index[id := into], sets := m.sets[into := m.sets[into] + [id]])
    else m
  }

  /** `BuildClusterSets` for two compatible clusters. */
  function Build(m: Books, a: nat, b: nat): Books
    requires a < |m.index| && b < |m.index|
  {
    if m.sets == [] then Append(Append(m, a, -1), b, 0)
    else
      var ai, bi := m.index[a], m.index[b];
      if ai >= 0 && bi < 0 then Append(m, b, ai)
      else if ai < 0 && bi >= 0 then Append(m, a, bi)
      else if ai < 0 && bi < 0 then
        var m1 := Append(m, a, -1);
        Append(m1, b, m1.index[a])
      else if ai != bi then m.(conflicts := m.conflicts + [(a, b)])
      else m
  }

  // ----- what every step keeps -----

  type Links = set<(nat, nat)>

  predicate Touch(links: Links, x: nat, y: nat) { (x, y) in links || (y, x) in links }

  /** The index and the list of sets say the same. */
  ghost predicate Agree(m: Books) {
    && (forall c :: 0 <= c < |m.index| ==> -1 <= m.index[c] < |m.sets|)
    && (forall c :: 0 <= c < |m.index| && m.index[c] >= 0 ==> c in m.sets[m.index[c]])
    && (forall k, p :: 0 <= k < |m.sets| && 0 <= p < |m.sets[k]| ==>
          m.sets[k][p] < |m.index| && m.index[m.sets[k][p]] == k)
  }

  /** No set is empty or repeats a cluster. */
  ghost predicate NoRepeats(m: Books) {
    && (forall k :: 0 <= k < |m.sets| ==> m.sets[k] != [])
    && (forall k, p, q :: 0 <= k < |m.sets| && 0 <= p < q < |m.sets[k]| ==> m.sets[k][p] != m.sets[k][q])
  }

  ghost predicate HasEarlier(links: Links, s: seq<nat>, p: nat)
    requires p < |s|
  {
    exists q :: 0 <= q < p && Touch(links, s[q], s[p])
  }

  /** Every cluster but the first of its set touches an earlier one. */
  ghost predicate Connected(m: Books, links: Links) {
    forall k, p :: 0 <= k < |m.sets| && 0 < p < |m.sets[k]| ==> HasEarlier(links, m.sets[k], p)
  }

  /** Exactly the linked pairs left apart are complained about. */
  ghost predicate Reported(m: Books, links: Links) {
    && (forall x: (nat, nat) :: x in links ==>
          x.0 < |m.index| && x.1 < |m.index| && m.index[x.0] >= 0 && m.index[x.1] >= 0)
    && (forall x: (nat, nat) :: x in links && m.index[x.0] != m.index[x.1] ==> x in m.conflicts)
    && (forall x: (nat, nat) :: x in m.conflicts ==> x in links && m.index[x.0] != m.index[x.1])
  }

  ghost predicate Pairs(m: Books) { forall k :: 0 <= k < |m.sets| ==> |m.sets[k]| >= 2 }

  ghost predicate Building(m: Books, links: Links) {
    Agree(m) && NoRepeats(m) && Connected(m, links) && Reported(m, links) && Pairs(m)
  }

  lemma EarlierLonger(links: Links, more: Links, s: seq<nat>, t: seq<nat>, p: nat)
    requires links <= more && s <= t && p < |s| && HasEarlier(links, s, p)
    ensures HasEarlier(more, t, p)
  {
    var q :| 0 <= q < p && Touch(links, s[q], s[p]);
    assert Touch(more, t[q], t[p]);
  }

  /** A new set of one. */
  lemma OpenSet(m: Books, links: Links, id: nat)
    requires Agree(m) && NoRepeats(m) && Connected(m, links) && id < |m.index| && m.index[id] < 0
    ensures var m' := Append(m, id, -1);
            && Agree(m') && NoRepeats(m') && Connected(m', links)
            && m' == m.(index := m.index[id := |m.sets|], sets := m.sets + [[id]])
  {
  }

  /** A cluster joins a set that holds one it touches. */
  lemma JoinSet(m: Books, links: Links, id: nat, into: nat, friend: nat)
    requires Agree(m) && NoRepeats(m) && Connected(m, links) && id < |m.index| && m.index[id] < 0
    requires into < |m.sets| && friend < |m.index| && m.index[friend] == into && Touch(links, friend, id)
    ensures var m' := Append(m, id, into);
            && Agree(m') && NoRepeats(m') && Connected(m', links)
            && m' == m.(index := m.index[id := into], sets := m.sets[into := m.sets[into] + [id]])
  {
    var m' := Append(m, id, into);
    var s := m.sets[into];
    forall k, p | 0 <= k < |m'.sets| && 0 < p < |m'.sets[k]|
      ensures HasEarlier(links, m'.sets[k], p)
    {
      if k == into {
        if p < |s| {
          EarlierLonger(links, links, s, m'.sets[k], p);
        } else {
          var q :| 0 <= q < |s| && s[q] == friend;
          assert Touch(links, m'.sets[k][q], m'.sets[k][p]);
        }
      }
    }
    forall c | 0 <= c < |m'.index| && m'.index[c] >= 0
      ensures c in m'.sets[m'.index[c]]
    {
      if c == id {
        assert m'.sets[into][|s|] == id;
      } else if m.index[c] == into {
        assert c in s;
      }
    }
  }

  lemma MoreLinks(m: Books, links: Links, more: Links)
    requires Connected(m, links) && links <= more
    ensures Connected(m, more)
  {
    forall k, p | 0 <= k < |m.sets| && 0 < p < |m.sets[k]|
      ensures HasEarlier(more, m.sets[k], p)
    {
      EarlierLonger(links, more, m.sets[k], m.sets[k], p);
    }
  }

  /** Settled clusters keep their set, so what was reported stays exact. */
  lemma ReportedStays(m: Books, m': Books, links: Links, a: nat, b: nat)
    requires Reported(m, links) && |m'.index| == |m.index| && m'.conflicts == m.conflicts
    requires forall c :: 0 <= c < |m.index| && m.index[c] >= 0 ==> m'.index[c] == m.index[c]
    requires a < |m'.index| && b < |m'.index| && m'.index[a] == m'.index[b] >= 0
    ensures Reported(m', links + {(a, b)})
  {
  }

  /** The central step: one more compatible pair. */
  lemma BuildKeeps(m: Books, links: Links, a: nat, b: nat)
    requires Building(m, links) && a < |m.index| && b < |m.index| && a != b
    ensures Building(Build(m, a, b), links + {(a, b)})
    ensures |Build(m, a, b).index| == |m.index|
  {
    var more := links + {(a, b)};
    MoreLinks(m, links, more);
    assert Touch(more, a, b) && Touch(more, b, a);
    var ai, bi := m.index[a], m.index[b];
    if ai < 0 && bi < 0 {
      OpenBoth(m, links, a, b);
    } else if ai >= 0 && bi < 0 {
      JoinSet(m, more, b, ai, a);
      ReportedStays(m, Build(m, a, b), links, a, b);
    } else if ai < 0 && bi >= 0 {
      JoinSet(m, more, a, bi, b);
      ReportedStays(m, Build(m, a, b), links, a, b);
    } else if ai == bi {
      ReportedStays(m, m, links, a, b);
    } else {
      var m' := Build(m, a, b);
      assert m'.conflicts == m.conflicts + [(a, b)];
      assert (a, b) in m'.conflicts;
      assert Connected(m', more);
    }
  }

  lemma OpenBoth(m: Books, links: Links, a: nat, b: nat)
    requires Building(m, links) && a < |m.index| && b < |m.index| && a != b
    requires m.index[a] < 0 && m.index[b] < 0
    ensures Building(Build(m, a, b), links + {(a, b)})
    ensures |Build(m, a, b).index| == |m.index|
  {
    var more := links + {(a, b)};
    MoreLinks(m, links, more);
    OpenSet(m, more, a);
    var m1 := Append(m, a, -1);
    assert Touch(more, a, b);
    JoinSet(m1, more, b, |m.sets|, a);
    ReportedStays(m, Build(m, a, b), links, a, b);
  }
}
