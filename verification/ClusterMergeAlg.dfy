/** The merging algorithm as the object that is filled event by event. */
module ClusterMergeAlg {
  import opened ClusterBooks
  import opened ClusterMerge

  datatype View = U | V | W | Unknown

  /** A cluster as it comes in, with the number of its hits and their charge. */
  datatype Found = Found(info: Cluster, view: View, hits: nat, charge: real)

  class Merger {
    const compatible: Compatible
    const minHits: nat
    const minCharge: real
    var uClusters: seq<Cluster>
    var vClusters: seq<Cluster>
    var wClusters: seq<Cluster>
    var mergedIndex: seq<int>
    var clusterSets: seq<seq<nat>>
    /** The pairs complained about since the event was cleared. */
    ghost var conflicts: seq<(nat, nat)>

    ghost function State(): Books
      reads this
    {
      Books(mergedIndex, clusterSets, conflicts)
    }

    function Clusters(): seq<Cluster>
      reads this
    {
      uClusters + vClusters + wClusters
    }

    /** Every cluster of the event has an entry in the index. */
    ghost predicate Valid()
      reads this
    {
      Known(Clusters(), |mergedIndex|)
    }

    constructor (compatible: Compatible, minHits: nat, minCharge: real)
      ensures this.compatible == compatible && this.minHits == minHits && this.minCharge == minCharge
      ensures Clusters() == [] && Valid() && Clean(State())
    {
      this.compatible, this.minHits, this.minCharge := compatible, minHits, minCharge;
      uClusters, vClusters, wClusters, mergedIndex, clusterSets := [], [], [], [], [];
      conflicts := [];
    }

    method ClearEventInfo()
      modifies this
      ensures Clusters() == [] && clusterSets == [] && Valid() && Clean(State())
    {
      uClusters, vClusters, wClusters, mergedIndex := [], [], [], [];
      clusterSets := [];
      conflicts := [];
    }

    /** Clusters with too few hits or too little charge leave no trace.  One of an invalid
        view is dropped, but the index still grows to its number. */
    method AppendClusterInfo(found: Found)
      requires Valid()
      modifies this`uClusters, this`vClusters, this`wClusters, this`mergedIndex
      ensures Valid() && (Clean(old(State())) ==> Clean(State()))
      ensures uClusters == old(uClusters) + (if Seen(found, U) then [found.info] else [])
      ensures vClusters == old(vClusters) + (if Seen(found, V) then [found.info] else [])
      ensures wClusters == old(wClusters) + (if Seen(found, W) then [found.info] else [])
      ensures old(mergedIndex) <= mergedIndex
      ensures if Considered(found) then found.info.id < |mergedIndex| <= old(|mergedIndex|) + found.info.id + 1
              else mergedIndex == old(mergedIndex)
      ensures forall c :: |old(mergedIndex)| <= c < |mergedIndex| ==> mergedIndex[c] == -1
      ensures found.charge < minCharge || found.hits <= minHits ==>
                Clusters() == old(Clusters()) && mergedIndex == old(mergedIndex)
      ensures found.charge >= minCharge && found.hits > minHits ==>
                found.info.id < |mergedIndex| && (found.view != Unknown ==> found.info in Clusters())
    {
      hide Known;
      if found.hits <= minHits {
        return;
      }
      if found.charge < minCharge {
        return;
      }
      var ci := found.info;
      match found.view {
        case U => uClusters := uClusters + [ci];
        case V => vClusters := vClusters + [ci];
        case W => wClusters := wClusters + [ci];
        case Unknown =>
      }
      if |mergedIndex| <= ci.id {
        mergedIndex := mergedIndex + seq(ci.id + 1 - |mergedIndex|, i => -1);
      }
      KnownMore(old(Clusters()), old(|mergedIndex|), Clusters(), ci, |mergedIndex|);
    }

    predicate Considered(found: Found) { found.hits > minHits && found.charge >= minCharge }

    predicate Seen(found: Found, view: View) { Considered(found) && found.view == view }

    /** The clusters taken into one view, in order. */
    function Taken(clusters: seq<Found>, view: View): seq<Cluster> {
      if clusters == [] then []
      else
        var last := clusters[|clusters| - 1];
        Taken(clusters[..|clusters| - 1], view) + (if Seen(last, view) then [last.info] else [])
    }

    /** While index and sets agree, the result is the set that holds the cluster, and
        negative if none does. */
    method IsInClusterSets(id: nat) returns (r: int)
      ensures Agree(State()) ==> forall k :: 0 <= k < |clusterSets| ==> (r == k <==> id in clusterSets[k])
      ensures Agree(State()) ==> r < |clusterSets|
      ensures r == -2 || (id < |mergedIndex| && r == mergedIndex[id])
      ensures id < |mergedIndex| ==> r == mergedIndex[id]
    {
      if id < |mergedIndex| {
        return mergedIndex[id];
      } else {
        return -2;
      }
    }

    method AppendToClusterSets(id: nat, into: int) returns (r: int)
      requires id < |mergedIndex|
      modifies this`mergedIndex, this`clusterSets
      ensures State() == Append(old(State()), id, into) && r == mergedIndex[id]
    {
      var known := IsInClusterSets(id);
      if !(known < 0) {
        return known;
      }
      if into < 0 {
        mergedIndex := mergedIndex[id := |clusterSets|];
        clusterSets := clusterSets + [[id]];
      } else if into < |clusterSets| {
        mergedIndex := mergedIndex[id := into];
        clusterSets := clusterSets[into := clusterSets[into] + [id]];
      }
      r := IsInClusterSets(id);
    }

    method BuildClusterSets(a: Cluster, b: Cluster)
      requires a.id < |mergedIndex| && b.id < |mergedIndex|
      modifies this`mergedIndex, this`clusterSets, this`conflicts
      ensures State() == BuildPair(old(State()), compatible, a, b)
    {
      if compatible(a, b) {
        if clusterSets == [] {
          var _ := AppendToClusterSets(a.id, -1);
          var _ := AppendToClusterSets(b.id, 0);
        } else {
          var ai := IsInClusterSets(a.id);
          var bi := IsInClusterSets(b.id);
          if ai >= 0 && bi < 0 {
            var _ := AppendToClusterSets(b.id, ai);
          } else if ai < 0 && bi >= 0 {
            var _ := AppendToClusterSets(a.id, bi);
          } else if ai < 0 && bi < 0 {
            ai := AppendToClusterSets(a.id, -1);
            var _ := AppendToClusterSets(b.id, ai);
          } else if ai != bi {
            conflicts := conflicts + [(a.id, b.id)];
          }
        }
      }
    }

    /** All pairs of clusters of one view. */
    method MergeView(cs: seq<Cluster>)
      requires Known(cs, |mergedIndex|)
      modifies this`mergedIndex, this`clusterSets, this`conflicts
      ensures State() == MergeRows(old(State()), compatible, cs, 0)
    {
      hide Build, Append;
      var i := 0;
      while i < |cs|
        invariant 0 <= i <= |cs| && |mergedIndex| == |old(mergedIndex)|
        invariant MergeRows(State(), compatible, cs, i) == MergeRows(old(State()), compatible, cs, 0)
      {
        var j := i + 1;
        while j < |cs|
          invariant i < j <= |cs| && |mergedIndex| == |old(mergedIndex)|
          invariant MergeRows(MergeRow(State(), compatible, cs, i, j), compatible, cs, i + 1)
                 == MergeRows(old(State()), compatible, cs, 0)
        {
          BuildClusterSets(cs[i], cs[j]);
          j := j + 1;
        }
        i := i + 1;
      }
    }

    /** Clusters of one view that are in no set yet get one of their own. */
    method FinalizeView(cs: seq<Cluster>)
      requires Known(cs, |mergedIndex|)
      modifies this`mergedIndex, this`clusterSets
      ensures State() == Finalize(old(State()), cs, 0)
    {
      var i := 0;
      while i < |cs|
        invariant 0 <= i <= |cs| && |mergedIndex| == |old(mergedIndex)|
        invariant Finalize(State(), cs, i) == Finalize(old(State()), cs, 0)
      {
        var known := IsInClusterSets(cs[i].id);
        if known < 0 {
          var _ := AppendToClusterSets(cs[i].id, -1);
        }
        i := i + 1;
      }
    }

    method FinalizeClusterSets()
      requires Valid()
      modifies this`mergedIndex, this`clusterSets
      ensures State() == Finalize(old(State()), Clusters(), 0)
    {
      hide Finalize;
      KnownParts(uClusters, vClusters, wClusters, |mergedIndex|);
      FinalizeParts(State(), uClusters, vClusters, wClusters);
      FinalizeView(uClusters);
      FinalizeView(vClusters);
      FinalizeView(wClusters);
    }

    method ProcessMergeAlg()
      requires Valid()
      modifies this`mergedIndex, this`clusterSets, this`conflicts
      ensures Valid() && State() == Process(old(State()), compatible, uClusters, vClusters, wClusters)
    {
      hide MergeRows, Finalize;
      KnownParts(uClusters, vClusters, wClusters, |mergedIndex|);
      clusterSets := [];
      MergeView(uClusters);
      MergeView(vClusters);
      MergeView(wClusters);
      FinalizeClusterSets();
    }
  }

  lemma KnownMore(before: seq<Cluster>, size: nat, after: seq<Cluster>, ci: Cluster, more: nat)
    requires Known(before, size) && size <= more && ci.id < more
    requires forall x :: x in after ==> x in before || x == ci
    ensures Known(after, more)
  {
    forall i | 0 <= i < |after|
      ensures after[i].id < more
    {
      assert after[i] in after;
    }
  }

  lemma {:induction false} FinalizeSkip(m: Books, a: seq<Cluster>, b: seq<Cluster>, i: nat)
    requires Known(a + b, |m.index|) && Known(b, |m.index|) && i <= |b|
    ensures Finalize(m, a + b, |a| + i) == Finalize(m, b, i)
    decreases |b| - i
  {
    if i < |b| {
      assert (a + b)[|a| + i] == b[i];
      FinalizeSkip(if m.index[b[i].id] < 0 then Append(m, b[i].id, -1) else m, a, b, i + 1);
    }
  }

  lemma {:induction false} FinalizeSplit(m: Books, a: seq<Cluster>, b: seq<Cluster>, i: nat)
    requires Known(a + b, |m.index|) && Known(a, |m.index|) && Known(b, |m.index|) && i <= |a|
    ensures Finalize(m, a + b, i) == Finalize(Finalize(m, a, i), b, 0)
    decreases |a| - i
  {
    if i == |a| {
      FinalizeSkip(m, a, b, 0);
    } else {
      assert (a + b)[i] == a[i];
      FinalizeSplit(if m.index[a[i].id] < 0 then Append(m, a[i].id, -1) else m, a, b, i + 1);
    }
  }

  /** View by view is the same as over the whole input. */
  lemma FinalizeParts(m: Books, u: seq<Cluster>, v: seq<Cluster>, w: seq<Cluster>)
    requires Known(u + v + w, |m.index|) && Known(u, |m.index|) && Known(v, |m.index|) && Known(w, |m.index|)
    ensures Finalize(m, u + v + w, 0) == Finalize(Finalize(Finalize(m, u, 0), v, 0), w, 0)
  {
    hide Finalize;
    assert Known(u + v, |m.index|);
    FinalizeSplit(m, u + v, w, 0);
    FinalizeSplit(m, u, v, 0);
  }

  /** A whole event: the sets that come out partition the clusters taken into the three
      views, every set is held together by compatible pairs, and the index agrees. */
  method MergeEvent(merger: Merger, clusters: seq<Found>)
    requires Distinct(merger.Taken(clusters, U) + merger.Taken(clusters, V) + merger.Taken(clusters, W))
    modifies merger
    ensures merger.Valid()
    ensures merger.Clusters() == merger.Taken(clusters, U) + merger.Taken(clusters, V) + merger.Taken(clusters, W)
    ensures Partition(merger.State(), merger.Clusters())
    ensures Connected(merger.State(),
              AllLinks(merger.compatible,
                merger.Taken(clusters, U), merger.Taken(clusters, V), merger.Taken(clusters, W)))
  {
    hide Connected, Partition, Known, Distinct;
    merger.ClearEventInfo();
    var i := 0;
    while i < |clusters|
      invariant 0 <= i <= |clusters| && merger.Valid() && Clean(merger.State())
      invariant merger.uClusters == merger.Taken(clusters[..i], U)
      invariant merger.vClusters == merger.Taken(clusters[..i], V)
      invariant merger.wClusters == merger.Taken(clusters[..i], W)
    {
      assert clusters[..i + 1][..i] == clusters[..i];
      merger.AppendClusterInfo(clusters[i]);
      i := i + 1;
    }
    assert clusters[..i] == clusters;
    ghost var m := merger.State();
    merger.ProcessMergeAlg();
    ProcessPartitions(m, merger.compatible, merger.uClusters, merger.vClusters, merger.wClusters);
  }
}
