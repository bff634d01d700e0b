/**
 The topology manager: its graph with the index maps, the computation of forwarding identifiers, and
 the update on link reports.
 */
module TmIgraphModel {
  import opened LinkIds
  import opened Forwarding
  import opened PathFids
  import opened LinkFailures

  function LidsOf(edges: seq<Edge>): map<nat, Fid> {
    map i: nat | i < |edges| :: edges[i].lid
  }

  /** The first edge that carries each identifier. */
  ghost predicate FirstEdges(edges: seq<Edge>, index: map<Fid, nat>) {
    && (forall i :: 0 <= i < |edges| ==> edges[i].lid in index && index[edges[i].lid] <= i)
    && (forall lid :: lid in index ==> index[lid] < |edges| && edges[index[lid]].lid == lid)
  }

  ghost predicate LidsDistinct(edges: seq<Edge>) {
    forall i, j :: 0 <= i < j < |edges| ==> edges[i].lid != edges[j].lid
  }

  /** The two index maps are inverse to each other exactly if the identifiers are distinct. */
  lemma IndexesInverse(edges: seq<Edge>, edgeLid: map<nat, Fid>, reverse: map<Fid, nat>)
    requires edgeLid == LidsOf(edges) && FirstEdges(edges, reverse)
    ensures (forall i :: i in edgeLid ==> reverse[edgeLid[i]] == i) <==> LidsDistinct(edges)
    ensures forall lid :: lid in reverse ==> edgeLid[reverse[lid]] == lid
  {
    if LidsDistinct(edges) {
      forall i | i in edgeLid ensures reverse[edgeLid[i]] == i {
        assert edges[reverse[edges[i].lid]].lid == edges[i].lid;
      }
    }
    if forall i :: i in edgeLid ==> reverse[edgeLid[i]] == i {
      forall i, j | 0 <= i < j < |edges| ensures edges[i].lid != edges[j].lid {
        assert i in edgeLid && j in edgeLid;
      }
    }
  }

  ghost function HopsIn(g: Graph, route: Router): (Label, Label) -> nat {
    (p: Label, s: Label) =>
      if Knows(g, p) && Knows(g, s) then
        var path := route(g.edges, g.nodeIndex[p], g.nodeIndex[s]);
        if path == [] then UINT_MAX else |path|
      else UINT_MAX
  }

  ghost function FidsIn(g: Graph, route: Router): (Label, Label) -> Fid {
    (p: Label, s: Label) =>
      if Knows(g, p) && Knows(g, s) && exists fid :: OredAlong(g.edges, route(g.edges, g.nodeIndex[p], g.nodeIndex[s]), fid) then
        var fid :| OredAlong(g.edges, route(g.edges, g.nodeIndex[p], g.nodeIndex[s]), fid);
        fid + g.nodeILid[s]
      else {}
  }

  lemma WayIs(g: Graph, route: Router, p: Label, s: Label, fid: Fid, hops: nat)
    requires Simple(g.edges) && Knows(g, p) && Knows(g, s) && IsWay(g, route, p, s, fid, hops)
    ensures hops == HopsIn(g, route)(p, s) && fid == FidsIn(g, route)(p, s)
  {
    var path := route(g.edges, g.nodeIndex[p], g.nodeIndex[s]);
    var ored :| OredAlong(g.edges, path, ored) && fid == ored + g.nodeILid[s];
    var other :| OredAlong(g.edges, path, other) && FidsIn(g, route)(p, s) == other + g.nodeILid[s];
    OredUnique(g.edges, path, ored, other);
  }

  class TMIgraph {
    /** The graph library's unweighted shortest path search. */
    const route: Router
    var edges: seq<Edge>
    var nodeIndex: map<Label, nat>
    var nodeILid: map<Label, Fid>
    var edgeLid: map<nat, Fid>
    var reverseEdgeIndex: map<Fid, nat>
    var removed: map<Pair, Fid>

    ghost function View(): Graph
      reads this
    {
      Graph(edges, nodeIndex, nodeILid)
    }

    ghost function State(): LinkState
      reads this
    {
      LinkState(edges, removed)
    }

    ghost predicate Valid()
      reads this
    {
      && IsRouter(route) && LinkFailures.Sound(State(), nodeIndex)
      && edgeLid == LidsOf(edges) && FirstEdges(edges, reverseEdgeIndex)
    }

    /** The id of the edge from u to v. */
    method GetEid(u: nat, v: nat) returns (eid: nat)
      requires HasEdge(edges, u, v)
      ensures eid < |edges| && edges[eid].src == u && edges[eid].dst == v
    {
      eid := 0;
      while !(edges[eid].src == u && edges[eid].dst == v)
        invariant eid < |edges| && exists i :: eid <= i < |edges| && edges[i].src == u && edges[i].dst == v
        decreases |edges| - eid
      {
        eid := eid + 1;
      }
    }

    /** The identifiers along the shortest path, and the destination's own, ORed together. */
    method CalculateFID(source: Label, destination: Label) returns (fid: Fid, hops: nat)
      requires Valid() && Knows(View(), source) && Knows(View(), destination)
      ensures IsWay(View(), route, source, destination, fid, hops)
      ensures hops == HopsIn(View(), route)(source, destination) && fid == FidsIn(View(), route)(source, destination)
    {
      hide IsRouter, LinkFailures.Sound, OredAlong, FirstEdges;
      var from, to := nodeIndex[source], nodeIndex[destination];
      var path := route(edges, from, to);
      assert Shortest(route, edges, from, to) by {
        RouterIs(route, edges, from, to);
      }
      fid := {};
      NoSteps(edges, path);
      var j := 0;
      while j < |path| - 1
        invariant 0 <= j && (path == [] ==> j == 0) && (path != [] ==> j <= |path| - 1)
        invariant OredAlong(edges, if path == [] then [] else path[..j + 1], fid)
      {
        assert Step(edges, path, j);
        var eid := GetEid(path[j], path[j + 1]);
        OredMore(edges, path, j, fid, edgeLid[eid]);
        fid := fid + edgeLid[eid];
        j := j + 1;
      }
      if path != [] {
        assert path[..j + 1] == path;
      }
      hops := |path|;
      if hops == 0 {
        hops := UINT_MAX;
      }
      fid := fid + nodeILid[destination];
      SoundIsSimple();
      WayIs(View(), route, source, destination, fid, hops);
    }

    lemma SoundIsSimple()
      requires Valid()
      ensures Simple(edges)
    {
    }

    /** For every subscriber the nearest publisher; for every publisher one identifier. */
    method CalculateFIDs(publishers: seq<Label>, subscribers: seq<Label>) returns (result: Fids)
      requires Valid() && forall l :: l in publishers || l in subscribers ==> Knows(View(), l)
      ensures result == Outcome(publishers, subscribers, HopsIn(View(), route), FidsIn(View(), route)).result
    {
      hide Valid, HopsIn, FidsIn;
      ghost var hopsIn, fidsIn := HopsIn(View(), route), FidsIn(View(), route);
      result := map p | p in publishers :: None;
      var bestPublisher: Label := "";
      var bestFid: Fid := {};
      ghost var lastHops := UINT_MAX;
      var k := 0;
      assert subscribers[..0] == [];
      while k < |subscribers|
        invariant 0 <= k <= |subscribers|
        invariant Progress(result, Best(bestPublisher, bestFid, lastHops)) == Outcome(publishers, subscribers[..k], hopsIn, fidsIn)
      {
        ghost var carried := Best(bestPublisher, bestFid, lastHops);
        var minimumNumberOfHops := UINT_MAX;
        var i := 0;
        while i < |publishers|
          invariant 0 <= i <= |publishers|
          invariant Best(bestPublisher, bestFid, minimumNumberOfHops)
                    == BestFor(publishers, i, subscribers[k], hopsIn, fidsIn, carried)
        {
          var resultFid, numberOfHops := CalculateFID(publishers[i], subscribers[k]);
          if minimumNumberOfHops > numberOfHops {
            minimumNumberOfHops := numberOfHops;
            bestPublisher := publishers[i];
            bestFid := resultFid;
          }
          i := i + 1;
        }
        if bestPublisher !in result || result[bestPublisher].None? || minimumNumberOfHops == UINT_MAX {
          result := result[bestPublisher := Some(bestFid)];
        } else {
          result := result[bestPublisher := Some(result[bestPublisher].value + bestFid)];
        }
        lastHops := minimumNumberOfHops;
        assert subscribers[..k + 1][..k] == subscribers[..k];
        k := k + 1;
      }
      assert subscribers[..k] == subscribers;
    }

    // ---------- link reports ----------

    method RebuildIndexes()
      modifies this`edgeLid, this`reverseEdgeIndex
      ensures edgeLid == LidsOf(edges) && FirstEdges(edges, reverseEdgeIndex)
    {
      hide FirstEdges, LidsOf;
      edgeLid, reverseEdgeIndex := map[], map[];
      NoIndex(edges);
      var i := 0;
      while i < |edges|
        invariant 0 <= i <= |edges| && edgeLid == LidsOf(edges[..i]) && FirstEdges(edges[..i], reverseEdgeIndex)
        invariant edges == old(edges)
      {
        var lid := edges[i].lid;
        IndexMore(edges, i, reverseEdgeIndex);
        if lid !in reverseEdgeIndex {
          reverseEdgeIndex := reverseEdgeIndex[lid := i];
        }
        edgeLid := edgeLid[i := lid];
        i := i + 1;
      }
      assert edges[..i] == edges;
    }

    /** A link is reported down or up again. */
    method UpdateGraph(source: Label, destination: Label, net: string, up: bool)
      requires Valid() && KnownLink(State(), nodeIndex, Report(source, destination, net, up))
      modifies this`edges, this`removed, this`edgeLid, this`reverseEdgeIndex
      ensures Valid() && State() == Update(old(State()), nodeIndex, Report(source, destination, net, up))
      ensures AllLinks(State(), nodeIndex) == AllLinks(old(State()), nodeIndex)
    {
      hide IsRouter, LinkFailures.Sound, FirstEdges, AllLinks, Joined, LiveLinks, Simple, HasEdge;
      ghost var st, r := State(), Report(source, destination, net, up);
      UpdateConserves(st, nodeIndex, r);
      FailedIsNotLive(st, nodeIndex);
      SoundIsSimple();
      var u, v := nodeIndex[source], nodeIndex[destination];
      var pair0, pair1 := (source, destination), (destination, source);
      if up {
        if pair0 in removed {
          RestoreLink(pair0);
          if net == "e" && pair1 in removed {
            RestoreLink(pair1);
          }
        }
      } else {
        if net == "e" {
          if !(pair0 in removed || pair1 in removed) {
            FailOther(st, nodeIndex, pair0, pair1);
            FailBoth(st, nodeIndex, pair0, pair1);
            var lid0 := LookUp(u, v);
            var lid1 := LookUp(v, u);
            removed := removed[pair0 := lid0];
            removed := removed[pair1 := lid1];
            edges := DeleteEdge(edges, u, v);
            edges := DeleteEdge(edges, v, u);
          }
        } else if net == "o" {
          if !(pair0 in removed) {
            var lid0 := LookUp(u, v);
            removed := removed[pair0 := lid0];
            edges := DeleteEdge(edges, u, v);
          }
        }
      }
      RebuildIndexes();
    }

    method RestoreLink(pair: Pair)
      requires pair in removed && pair.0 in nodeIndex && pair.1 in nodeIndex
      modifies this`edges, this`removed
      ensures State() == Restore(old(State()), nodeIndex, pair)
    {
      edges := edges + [Edge(nodeIndex[pair.0], nodeIndex[pair.1], removed[pair])];
      removed := removed - {pair};
    }

    /** The identifier of the live edge from u to v, by its edge id. */
    method LookUp(u: nat, v: nat) returns (lid: Fid)
      requires Simple(edges) && Joined(edges, u, v) && edgeLid == LidsOf(edges)
      ensures lid == LidOf(edges, u, v)
    {
      JoinedHasEdge(edges, u, v);
      var eid := GetEid(u, v);
      lid := edgeLid[eid];
      OnlyEdge(edges, u, v);
      assert edges[eid] in edges && edges[eid] !in Without(edges, u, v);
    }

    static method DeleteEdge(edges: seq<Edge>, u: nat, v: nat) returns (left: seq<Edge>)
      ensures left == Without(edges, u, v)
    {
      left := [];
      var i := 0;
      while i < |edges|
        invariant 0 <= i <= |edges| && left == Without(edges[..i], u, v)
      {
        assert edges[..i + 1][..i] == edges[..i];
        if !(edges[i].src == u && edges[i].dst == v) {
          left := left + [edges[i]];
        }
        i := i + 1;
      }
      assert edges[..i] == edges;
    }
  }

  lemma JoinedHasEdge(edges: seq<Edge>, u: nat, v: nat)
    requires Joined(edges, u, v)
    ensures HasEdge(edges, u, v)
  {
    var e :| e in edges && e.src == u && e.dst == v;
    var i :| 0 <= i < |edges| && edges[i] == e;
  }

  lemma NoIndex(edges: seq<Edge>)
    ensures LidsOf(edges[..0]) == map[] && FirstEdges(edges[..0], map[])
  {
  }

  lemma IndexMore(edges: seq<Edge>, i: nat, reverse: map<Fid, nat>)
    requires i < |edges| && FirstEdges(edges[..i], reverse)
    ensures LidsOf(edges[..i + 1]) == LidsOf(edges[..i])[i := edges[i].lid]
    ensures FirstEdges(edges[..i + 1], if edges[i].lid in reverse then reverse else reverse[edges[i].lid := i])
  {
    var front, more := edges[..i], edges[..i + 1];
    assert LidsOf(more).Keys == LidsOf(front).Keys + {i};
    var reverse' := if edges[i].lid in reverse then reverse else reverse[edges[i].lid := i];
    forall k | 0 <= k < |more| ensures more[k].lid in reverse' && reverse'[more[k].lid] <= k {
      if k < i {
        assert more[k] == front[k];
      }
    }
    forall lid | lid in reverse' ensures reverse'[lid] < |more| && more[reverse'[lid]].lid == lid {
      if lid in reverse {
        assert more[reverse[lid]] == front[reverse[lid]];
      }
    }
  }

  /** Failing both directions one after the other is deleting both edges at once. */
  lemma FailBoth(st: LinkState, index: map<Label, nat>, p: Pair, q: Pair)
    requires LinkFailures.Sound(st, index) && p.0 in index && p.1 in index && q.0 in index && q.1 in index && p != q
    requires Joined(st.edges, index[p.0], index[p.1]) && Joined(st.edges, index[q.0], index[q.1])
    requires Joined(Fail(st, index, p).edges, index[q.0], index[q.1])
    ensures Fail(Fail(st, index, p), index, q) ==
      LinkState(Without(Without(st.edges, index[p.0], index[p.1]), index[q.0], index[q.1]),
                st.removed[p := LidOf(st.edges, index[p.0], index[p.1])][q := LidOf(st.edges, index[q.0], index[q.1])])
  {
    var left := Without(st.edges, index[p.0], index[p.1]);
    WithoutIsSimple(st.edges, index[p.0], index[p.1]);
    var e := Edge(index[q.0], index[q.1], LidOf(left, index[q.0], index[q.1]));
    assert e in left && e in st.edges;
    var d := Edge(index[q.0], index[q.1], LidOf(st.edges, index[q.0], index[q.1]));
    OnlyEdge(st.edges, index[q.0], index[q.1]);
    assert e !in Without(st.edges, index[q.0], index[q.1]);
  }

  lemma RouterIs(route: Router, edges: seq<Edge>, s: nat, t: nat)
    requires IsRouter(route)
    ensures Shortest(route, edges, s, t)
  {
  }

  lemma NoSteps(edges: seq<Edge>, path: seq<nat>)
    ensures OredAlong(edges, [], {})
    ensures path != [] ==> OredAlong(edges, path[..1], {})
  {
  }

  lemma OredMore(edges: seq<Edge>, path: seq<nat>, j: nat, fid: Fid, lid: Fid)
    requires j + 1 < |path| && OredAlong(edges, path[..j + 1], fid) && Carries(edges, path[j], path[j + 1], lid)
    ensures OredAlong(edges, path[..j + 2], fid + lid)
  {
    hide Carries;
    var p, q := path[..j + 1], path[..j + 2];
    forall i | 0 <= i < |q| - 1 ensures StepLid(edges, q, i, fid + lid) {
      if i < j {
        assert StepLid(edges, p, i, fid);
        var x :| Carries(edges, p[i], p[i + 1], x) && x <= fid;
        assert Carries(edges, q[i], q[i + 1], x) && x <= fid + lid;
      } else {
        assert Carries(edges, q[i], q[i + 1], lid) && lid <= fid + lid;
      }
    }
    forall b | b in fid + lid ensures exists i {:trigger BitOf(edges, q, i, b)} :: 0 <= i < |q| - 1 && BitOf(edges, q, i, b) {
      if b in lid {
        assert BitOf(edges, q, j, b);
      } else {
        var i :| 0 <= i < |p| - 1 && BitOf(edges, p, i, b);
        assert BitOf(edges, q, i, b);
      }
    }
  }
}
