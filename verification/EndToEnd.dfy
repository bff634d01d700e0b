/**
 From the topology manager to the subscribers: the identifiers it computes take a packet along
 shortest paths to every subscriber.
 */
module EndToEnd {
  import opened LinkIds
  import opened Forwarding
  import opened PathFids
  import opened TmIgraphModel

  /** The topology manager's graph shows the domain's nodes and live connections as they are. */
  ghost predicate Mirrors(g: Graph, nodes: seq<NetworkNode>) {
    && (forall l :: Knows(g, l) ==> g.nodeIndex[l] < |nodes| && g.nodeILid[l] == nodes[g.nodeIndex[l]].iLid)
    && (forall i :: 0 <= i < |g.edges| ==> IsConnection(nodes, g.edges[i]))
  }

  ghost predicate IsConnection(nodes: seq<NetworkNode>, e: Edge) {
    exists h :: InNet(nodes, h) && Conn(nodes, h).src == e.src && Conn(nodes, h).dst == e.dst && Conn(nodes, h).lid == e.lid
  }

  /** A path that comes back after two steps can be cut short. */
  lemma ShortCut(edges: seq<Edge>, p: seq<nat>, s: nat, t: nat, i: nat) returns (q: seq<nat>)
    requires VertexPath(edges, p, s, t) && i + 2 < |p| && p[i] == p[i + 2]
    ensures VertexPath(edges, q, s, t) && |q| < |p|
  {
    q := p[..i + 1] + p[i + 3..];
    forall k | 0 <= k < |q| - 1 ensures Step(edges, q, k) {
      if k < i {
        assert Step(edges, p, k);
      } else {
        assert Step(edges, p, k + 2);
      }
    }
  }

  /** A shortest path never visits a vertex again two steps later. */
  lemma ShortestNeverBack(route: Router, edges: seq<Edge>, s: nat, t: nat, i: nat)
    requires Shortest(route, edges, s, t) && i + 2 < |route(edges, s, t)|
    ensures route(edges, s, t)[i] != route(edges, s, t)[i + 2]
  {
    var p := route(edges, s, t);
    if p[i] == p[i + 2] {
      var q := ShortCut(edges, p, s, t, i);
    }
  }

  lemma {:induction false} OredExists(edges: seq<Edge>, p: seq<nat>, n: nat) returns (fid: Fid)
    requires 1 <= n <= |p| && forall i :: 0 <= i < |p| - 1 ==> Step(edges, p, i)
    ensures OredAlong(edges, p[..n], fid)
  {
    if n == 1 {
      fid := {};
    } else {
      var front := OredExists(edges, p, n - 1);
      assert Step(edges, p, n - 2);
      var i :| 0 <= i < |edges| && edges[i].src == p[n - 2] && edges[i].dst == p[n - 1];
      assert Carries(edges, p[n - 2], p[n - 1], edges[i].lid);
      OredMore(edges, p, n - 2, front, edges[i].lid);
      fid := front + edges[i].lid;
    }
  }

  /** The link behind step i of a vertex path, with an identifier contained in the path's. */
  lemma HopOfStep(g: Graph, nodes: seq<NetworkNode>, p: seq<nat>, fid: Fid, i: nat) returns (h: Hop)
    requires Mirrors(g, nodes) && OredAlong(g.edges, p, fid) && i + 1 < |p|
    ensures LeadsOn(nodes, h, p, i, fid)
  {
    assert StepLid(g.edges, p, i, fid);
    var lid :| Carries(g.edges, p[i], p[i + 1], lid) && lid <= fid;
    var j :| 0 <= j < |g.edges| && g.edges[j] == Edge(p[i], p[i + 1], lid);
    assert IsConnection(nodes, g.edges[j]);
    h :| InNet(nodes, h) && Conn(nodes, h).src == p[i] && Conn(nodes, h).dst == p[i + 1] && Conn(nodes, h).lid == lid;
  }

  lemma {:induction false} HopsOfPath(g: Graph, nodes: seq<NetworkNode>, p: seq<nat>, fid: Fid, n: nat) returns (hops: seq<Hop>)
    requires Mirrors(g, nodes) && OredAlong(g.edges, p, fid) && n < |p|
    ensures |hops| == n && InNetAll(nodes, hops)
    ensures forall i :: 0 <= i < n ==> LeadsOn(nodes, hops[i], p, i, fid)
  {
    hide Mirrors, OredAlong, LeadsOn;
    if n == 0 {
      hops := [];
    } else {
      var front := HopsOfPath(g, nodes, p, fid, n - 1);
      var h := HopOfStep(g, nodes, p, fid, n - 1);
      hops := front + [h];
      assert LeadsOn(nodes, hops[n - 1], p, n - 1, fid);
    }
  }

  ghost predicate LeadsOn(nodes: seq<NetworkNode>, h: Hop, p: seq<nat>, i: nat, fid: Fid) {
    i + 1 < |p| && InNet(nodes, h) && Conn(nodes, h).src == p[i] && Conn(nodes, h).dst == p[i + 1] && Conn(nodes, h).lid <= fid
  }

  lemma LidsWithin(nodes: seq<NetworkNode>, hops: seq<Hop>, fid: Fid)
    requires InNetAll(nodes, hops) && forall i :: 0 <= i < |hops| ==> Conn(nodes, hops[i]).lid <= fid
    ensures PathLids(nodes, hops) <= fid
  {
  }

  /** The way to a reachable subscriber on another node, as a path of links that never goes straight back. */
  lemma WayToSubscriber(g: Graph, route: Router, nodes: seq<NetworkNode>, p: Label, s: Label, fid: Fid) returns (path: seq<Hop>)
    requires IsRouter(route) && Simple(g.edges) && Mirrors(g, nodes) && Knows(g, p) && Knows(g, s)
    requires HopsIn(g, route)(p, s) < UINT_MAX && FidsIn(g, route)(p, s) <= fid
    ensures nodes[g.nodeIndex[s]].iLid <= fid
    ensures g.nodeIndex[p] != g.nodeIndex[s] ==>
      && Path(nodes, path, g.nodeIndex[p], g.nodeIndex[s]) && |path| + 1 == HopsIn(g, route)(p, s)
      && PathLids(nodes, path) <= fid
  {
    hide Simple, IsRouter, PathLids;
    var u, v := g.nodeIndex[p], g.nodeIndex[s];
    var vertices := route(g.edges, u, v);
    RouterIs(route, g.edges, u, v);
    var any := OredExists(g.edges, vertices, |vertices|);
    assert vertices[..|vertices|] == vertices;
    var ored :| OredAlong(g.edges, vertices, ored) && FidsIn(g, route)(p, s) == ored + g.nodeILid[s];
    path := [];
    if u != v {
      path := HopsOfPath(g, nodes, vertices, ored, |vertices| - 1);
      assert forall i :: 0 <= i < |path| ==> LeadsOn(nodes, path[i], vertices, i, ored);
      LidsWithin(nodes, path, ored);
      hide Mirrors, OredAlong;
      forall i | 0 <= i < |path| - 1 ensures Onward(nodes, path, i) {
        ShortestNeverBack(route, g.edges, u, v, i);
      }
    }
  }

  /** A subscriber gets what its nearest publisher sends, provided it can be reached and is covered. */
  lemma CoveredSubscriberServed(g: Graph, route: Router, nodes: seq<NetworkNode>, pubs: seq<Label>, subs: seq<Label>, k: nat, width: nat)
    requires IsRouter(route) && Simple(g.edges) && Mirrors(g, nodes) && WellFormed(nodes)
    requires forall l :: l in pubs || l in subs ==> Knows(g, l)
    requires k < |subs| && Reachable(pubs, subs[k], HopsIn(g, route))
    requires Covered(Outcome(pubs, subs, HopsIn(g, route), FidsIn(g, route)).result, pubs, subs[k], HopsIn(g, route), FidsIn(g, route))
    ensures ServedNearest(g, route, nodes, pubs, subs, k, width)
  {
    hide IsRouter, Simple, Mirrors, WellFormed, Outcome, HopsIn, FidsIn, Reachable, ServedBy;
    var hops, fids := HopsIn(g, route), FidsIn(g, route);
    var i := BestIsNearest(pubs, |pubs|, subs[k], hops, fids, Nobody);
    assert pubs[..|pubs|] == pubs;
    ServedByNearest(pubs, subs[k], hops, i);
    var fid := Outcome(pubs, subs, hops, fids).result[pubs[i]].value;
    var path := WayToSubscriber(g, route, nodes, pubs[i], subs[k], fid);
    MirrorsIndex(g, nodes, subs[k]);
    hide AllOnes, PathLids;
    if g.nodeIndex[pubs[i]] != g.nodeIndex[subs[k]] && (|path| == 1 || !AllOnes(fid, width)) {
      NoFalseNegatives(nodes, fid, g.nodeIndex[pubs[i]], g.nodeIndex[subs[k]], path, width);
    }
  }

  /** Among the publishers the nearest to subscriber k has an identifier that takes its packets there. */
  ghost predicate ServedNearest(g: Graph, route: Router, nodes: seq<NetworkNode>, pubs: seq<Label>, subs: seq<Label>, k: nat, width: nat)
    requires k < |subs|
  {
    var result := Outcome(pubs, subs, HopsIn(g, route), FidsIn(g, route)).result;
    exists i: nat {:trigger Nearest(pubs, subs[k], HopsIn(g, route), i)} ::
      && Nearest(pubs, subs[k], HopsIn(g, route), i) && pubs[i] in result && result[pubs[i]].Some?
      && Knows(g, pubs[i]) && Knows(g, subs[k])
      && Reaches(nodes, result[pubs[i]].value, g.nodeIndex[pubs[i]], g.nodeIndex[subs[k]], HopsIn(g, route)(pubs[i], subs[k]), width)
  }

  /** No false negatives end to end: if all subscribers can be reached, each gets what its nearest publisher sends. */
  lemma EverySubscriberServed(g: Graph, route: Router, nodes: seq<NetworkNode>, pubs: seq<Label>, subs: seq<Label>, k: nat, width: nat)
    requires IsRouter(route) && Simple(g.edges) && Mirrors(g, nodes) && WellFormed(nodes)
    requires forall l :: l in pubs || l in subs ==> Knows(g, l)
    requires AllReachable(pubs, subs, HopsIn(g, route)) && k < |subs|
    ensures ServedNearest(g, route, nodes, pubs, subs, k, width)
  {
    hide IsRouter, Simple, Mirrors, WellFormed, Outcome, HopsIn, FidsIn, ServedNearest, Covered;
    EverySubscriberCovered(pubs, subs, HopsIn(g, route), FidsIn(g, route), k);
    CoveredSubscriberServed(g, route, nodes, pubs, subs, k, width);
  }

  lemma MirrorsIndex(g: Graph, nodes: seq<NetworkNode>, l: Label)
    requires Mirrors(g, nodes) && Knows(g, l)
    ensures g.nodeIndex[l] < |nodes|
  {
  }

  /** The identifier carries t's own one, and from another node s a packet with it is delivered at t,
      unless it is all ones and the way has more than one link. */
  ghost predicate Reaches(nodes: seq<NetworkNode>, fid: Fid, s: nat, t: nat, hops: nat, width: nat) {
    && t < |nodes| && nodes[t].iLid <= fid
    && (s != t && (hops == 2 || !AllOnes(fid, width)) ==> DeliveredAt(nodes, fid, s, t, width))
  }
}
