/**
 The max-concurrent-flow solver of the topology manager, in the imperative form of its source.
 Shortest paths come from the routine sp, which stands for the graph library's; its
 contract is FlowPhases.Reaches.
 */
module GraphMfModel {
  import opened RealArithmetic
  import opened GrowthFactor
  import opened FlowNetwork
  import opened FlowSteps
  import opened FlowPhases
  import opened FlowRuns

  ghost predicate IsPermutation(s: seq<int>, n: nat) {
    && |s| == n
    && (forall i :: 0 <= i < n ==> 0 <= s[i] < n)
    && (forall i, j :: 0 <= i < j < n ==> s[i] != s[j])
    && (forall v :: 0 <= v < n ==> v in s)
  }

  /** A random permutation in place; every exchange partner is an arbitrary choice. */
  method RandomShuffle(a: array<int>, ghost n: nat)
    requires IsPermutation(a[..], n)
    modifies a
    ensures IsPermutation(a[..], n)
  {
    var i := 1;
    while i < a.Length
      invariant 0 <= i
      invariant IsPermutation(a[..], n)
    {
      var j: int :| 0 <= j <= i;
      ghost var before := a[..];
      a[i], a[j] := a[j], a[i];
      forall v | 0 <= v < n ensures v in a[..] {
        assert v in before;
        var k :| 0 <= k < |before| && before[k] == v;
        assert a[..][if k == i then j else if k == j then i else k] == v;
      }
      i := i + 1;
    }
  }

  ghost function PathCount(ds: seq<MfDemand>): nat {
    if ds == [] then 0 else PathCount(ds[..|ds| - 1]) + |ds[|ds| - 1].pathFlow|
  }

  lemma {:induction false} PathCountUpdate(ds: seq<MfDemand>, i: nat, d: MfDemand)
    requires i < |ds|
    ensures PathCount(ds[i := d]) == PathCount(ds) - |ds[i].pathFlow| + |d.pathFlow|
  {
    var n := |ds| - 1;
    if i == n {
      assert ds[i := d][..n] == ds[..n];
    } else {
      assert ds[i := d][..n] == ds[..n][i := d];
      PathCountUpdate(ds[..n], i, d);
    }
  }

  /** The edges on the part of p from position k - 1 on are those from k on and one more. */
  lemma OnPathPrepend(x: Edge, p: Path, k: nat)
    requires 1 <= k < |p| && Simple(p)
    ensures OnPath(x, p[k - 1..]) <==> OnPath(x, p[k..]) || x == Edge(p[k - 1], p[k])
    ensures !OnPath(Edge(p[k - 1], p[k]), p[k..])
  {
    var q, r := p[k - 1..], p[k..];
    assert q[0] == p[k - 1] && q[1] == p[k];
    if OnPath(x, q) {
      var i :| 0 <= i < |q| - 1 && x.src == q[i] && x.dst == q[i + 1];
      if i > 0 {
        assert x.src == r[i - 1] && x.dst == r[i - 1 + 1];
      }
    }
    if OnPath(x, r) {
      var i :| 0 <= i < |r| - 1 && x.src == r[i] && x.dst == r[i + 1];
      assert x.src == q[i + 1] && x.dst == q[i + 1 + 1];
    }
    if x == Edge(p[k - 1], p[k]) {
      assert x.src == q[0] && x.dst == q[0 + 1];
    }
  }

  lemma StepOnPath(edges: seq<Edge>, p: Path, k: nat)
    requires k + 1 < |p| && PathIn(edges, p)
    ensures Edge(p[k], p[k + 1]) in edges && OnPath(Edge(p[k], p[k + 1]), p)
  {
    var x := Edge(p[k], p[k + 1]);
    assert x.src == p[k] && x.dst == p[k + 1];
  }

  lemma StepOf(x: Edge, p: Path) returns (i: nat)
    requires OnPath(x, p)
    ensures i < |p| - 1 && x == Edge(p[i], p[i + 1])
  {
    i :| 0 <= i < |p| - 1 && x.src == p[i] && x.dst == p[i + 1];
  }

  lemma PushedMore(n: Network, w: EdgeMap, p: Path, k: nat, e: real, u: real)
    requires n.Valid() && Lengths(n, w) && 1 <= k < |p| && Simple(p) && Edge(p[k - 1], p[k]) in n.edges
    ensures var ed, w' := Edge(p[k - 1], p[k]), Pushed(n, w, p[k..], e, u);
      ed in w' && Pushed(n, w, p[k - 1..], e, u) == w'[ed := Times(w'[ed], Stretch(e, u, n.capacity[ed]))]
  {
    hide Times, Stretch, OnPath;
    var ed := Edge(p[k - 1], p[k]);
    OnPathPrepend(ed, p, k);
    forall x ensures OnPath(x, p[k - 1..]) <==> OnPath(x, p[k..]) || x == ed {
      OnPathPrepend(x, p, k);
    }
  }

  lemma PushedLast(n: Network, w: EdgeMap, p: Path, e: real, u: real)
    requires n.Valid() && Lengths(n, w) && |p| >= 2 && Simple(p) && Edge(p[|p| - 2], p[|p| - 1]) in n.edges
    ensures var ed := Edge(p[|p| - 2], p[|p| - 1]);
      ed in w && SameEdges(n, w) && Pushed(n, w, p[|p| - 2..], e, u) == w[ed := Times(w[ed], Stretch(e, u, n.capacity[ed]))]
  {
    hide Times, Stretch, OnPath;
    var last := p[|p| - 1..];
    forall x ensures !OnPath(x, last) {
      LastIsAlone(p, x);
    }
    assert Pushed(n, w, p[|p| - 1..], e, u) == w;
    PushedMore(n, w, p, |p| - 1, e, u);
  }

  /** The shortest route the routine finds for a demand. */
  lemma RouteFor(n: Network, ds: seq<MfDemand>, sp: ShortestPaths, w: EdgeMap, i: nat) returns (p: Path)
    requires Reaches(n, ds, sp) && Lengths(n, w) && i < |ds|
    ensures ShortestRoute(n.edges, w, ds[i].source, ds[i].sink, sp(w, ds[i].source), p)
    ensures IsRoute(n.edges, ds[i].source, ds[i].sink, p) && TreePath(sp(w, ds[i].source).penult, p)
  {
    assert HasShortest(n, w, ds[i].source, ds[i].sink, sp(w, ds[i].source));
    p :| ShortestRoute(n.edges, w, ds[i].source, ds[i].sink, sp(w, ds[i].source), p);
  }

  lemma LastIsAlone(p: Path, x: Edge)
    requires |p| >= 1
    ensures !OnPath(x, p[|p| - 1..])
  {
  }

  ghost predicate SameEdges(n: Network, w: EdgeMap) {
    forall x :: x in w <==> x in n.edges
  }

  class GraphMf {
    const net: Network
    const dblMax: real
    var gdual: EdgeMap
    var numberFlows: nat
    var totalPhases: nat
    var lambda: real
    var beta: real

    constructor (net: Network, dblMax: real)
      requires net.Valid() && dblMax > 0.0
      ensures this.net == net && this.dblMax == dblMax
    {
      this.net := net;
      this.dblMax := dblMax;
      gdual := map[];
      numberFlows, totalPhases := 0, 0;
      lambda, beta := 0.0, 0.0;
    }

    method CalcD() returns (sum: real)
      requires net.Valid() && Lengths(net, gdual)
      ensures sum == Dot(net.edges, gdual, net.capacity)
    {
      hide Times;
      sum := 0.0;
      var i := 0;
      while i < |net.edges|
        invariant 0 <= i <= |net.edges|
        invariant sum == Dot(net.edges[..i], gdual, net.capacity)
      {
        assert net.edges[..i + 1][..i] == net.edges[..i];
        assert net.edges[i] in net.edges;
        sum := sum + Times(gdual[net.edges[i]], net.capacity[net.edges[i]]);
        i := i + 1;
      }
      assert net.edges[..i] == net.edges;
    }

    /** Walks the predecessors from the sink and finds the smallest capacity on the way. */
    method Bottleneck(source: Vertex, sink: Vertex, penult: map<Vertex, Vertex>, ghost p: Path) returns (mincap: real)
      requires net.Valid() && IsRoute(net.edges, source, sink, p) && TreePath(penult, p)
      ensures mincap > 0.0
      ensures forall x :: x in net.edges && OnPath(x, p) ==> mincap <= net.capacity[x]
      ensures exists x :: x in net.edges && OnPath(x, p) && mincap == net.capacity[x]
    {
      hide OnPath;
      ghost var k := |p| - 2;
      var f := sink;
      var pr := penult[f];
      assert f == p[k + 1] && pr == p[k];
      StepOnPath(net.edges, p, k);
      mincap := net.capacity[Edge(pr, f)];
      ghost var least := Edge(pr, f);
      f := pr;
      pr := penult[pr];
      while f != source
        invariant 0 <= k <= |p| - 2
        invariant f == p[k] && (k > 0 ==> pr == p[k - 1])
        invariant least in net.edges && OnPath(least, p) && mincap == net.capacity[least]
        invariant forall i :: k <= i < |p| - 1 ==> mincap <= net.capacity[Edge(p[i], p[i + 1])]
        decreases k
      {
        StepOnPath(net.edges, p, k - 1);
        var cap := net.capacity[Edge(pr, f)];
        if cap < mincap {
          mincap := cap;
          least := Edge(pr, f);
        }
        k := k - 1;
        f := pr;
        pr := penult[pr];
      }
      assert k == 0;
      forall x | x in net.edges && OnPath(x, p) ensures mincap <= net.capacity[x] {
        var i := StepOf(x, p);
      }
    }

    /** Walks the same way again, stretches each edge and records the path source first. */
    method StretchPath(source: Vertex, sink: Vertex, penult: map<Vertex, Vertex>, e: real, u: real, ghost p: Path)
      returns (path: Path)
      requires net.Valid() && Lengths(net, gdual)
      requires IsRoute(net.edges, source, sink, p) && TreePath(penult, p)
      modifies this`gdual
      ensures path == p
      ensures gdual == Pushed(net, old(gdual), p, e, u)
    {
      hide Times, Stretch, OnPath, Pushed, Lengths;
      ghost var w0 := gdual;
      ghost var k := |p| - 2;
      StepOnPath(net.edges, p, k);
      PushedLast(net, w0, p, e, u);
      var f := sink;
      var pr := penult[f];
      var ed := Edge(pr, f);
      gdual := gdual[ed := Times(gdual[ed], Stretch(e, u, net.capacity[ed]))];
      path := [f];
      path := [pr] + path;
      assert path == p[k..];
      f := pr;
      pr := penult[pr];
      while f != source
        invariant 0 <= k <= |p| - 2
        invariant f == p[k] && (k > 0 ==> pr == p[k - 1])
        invariant path == p[k..]
        invariant SameEdges(net, gdual)
        invariant gdual == Pushed(net, w0, p[k..], e, u)
        decreases k
      {
        StepOnPath(net.edges, p, k - 1);
        PushedMore(net, w0, p, k, e, u);
        ed := Edge(pr, f);
        gdual := gdual[ed := Times(gdual[ed], Stretch(e, u, net.capacity[ed]))];
        path := [pr] + path;
        k := k - 1;
        f := pr;
        pr := penult[pr];
      }
      assert k == 0 && p[0..] == p;
    }

    /** One iteration for demand i: a shortest path, its bottleneck, the push. */
    method RouteOnce(demands: array<MfDemand>, i: nat, remaining: real, e: real, sp: ShortestPaths)
      returns (u: real, ghost p: Path)
      requires net.Valid() && Lengths(net, gdual) && i < demands.Length && remaining > 0.0
      requires Reaches(net, demands[..], sp)
      requires numberFlows == PathCount(demands[..])
      modifies demands, this`gdual, this`numberFlows
      ensures ShortestRoute(net.edges, old(gdual), old(demands[i].source), old(demands[i].sink), sp(old(gdual), old(demands[i].source)), p)
      ensures 0.0 < u <= remaining
      ensures forall x :: x in net.edges && OnPath(x, p) ==> u <= net.capacity[x]
      ensures u == remaining || exists x :: x in net.edges && OnPath(x, p) && u == net.capacity[x]
      ensures demands[..] == old(demands[..])[i := Routed(old(demands[i]), p, u)]
      ensures gdual == Pushed(net, old(gdual), p, e, u)
      ensures numberFlows == PathCount(demands[..])
    {
      hide Times, PathLen, Stretch, OnPath, IsRoute, TreePath, ShortestRoute, Reaches, Lengths, Pushed, Weigh;
      var source, sink := demands[i].source, demands[i].sink;
      var tree := sp(gdual, source);
      p := RouteFor(net, demands[..], sp, gdual, i);
      var mincap := Bottleneck(source, sink, tree.penult, p);
      u := if remaining < mincap then remaining else mincap;
      var path := StretchPath(source, sink, tree.penult, e, u, p);
      ghost var before := demands[..];
      if path !in demands[i].pathFlow {
        demands[i] := demands[i].(pathFlow := demands[i].pathFlow[path := u]);
        numberFlows := numberFlows + 1;
      } else {
        demands[i] := demands[i].(pathFlow := demands[i].pathFlow[path := demands[i].pathFlow[path] + u]);
      }
      demands[i] := demands[i].(flow := demands[i].flow + u);
      assert demands[i] == Routed(before[i], p, u);
      PathCountUpdate(before, i, demands[i]);
    }

    /** One iteration together with what it keeps. */
    method Advance(demands: array<MfDemand>, i: nat, remaining: real, e: real, d: real, sp: ShortestPaths,
                   ghost start: seq<MfDemand>, ghost delta: real, ghost low: real, ghost d0: real, ghost routed: seq<real>)
      returns (u: real, d': real)
      requires i < demands.Length
      requires Running(net, sp, start, demands[..], gdual, e, delta, low, d0, d, routed)
      requires 0.0 < e && delta > 0.0 && low >= 0.0 && d < 1.0
      requires i < |routed| && 0.0 < remaining == demands[i].demand - routed[i]
      requires numberFlows == PathCount(demands[..])
      modifies demands, this`gdual, this`numberFlows
      ensures 0.0 < u <= remaining
      ensures u == remaining || exists x :: x in net.edges && u == net.capacity[x]
      ensures Running(net, sp, start, demands[..], gdual, e, delta, low, d0, d', routed[i := routed[i] + u])
      ensures numberFlows == PathCount(demands[..])
      ensures d < d' && demands[i].demand == old(demands[i].demand)
      ensures forall j :: 0 <= j < demands.Length && j != i ==> demands[j] == old(demands[j])
    {
      hide Times, PathLen, OnPath, Running, Pushed, Dot, ShortestRoute, Reaches, Lengths, Routed;
      RunningParts(net, sp, start, demands[..], gdual, e, delta, low, d0, d, routed);
      ghost var before, w := demands[..], gdual;
      ghost var p;
      u, p := RouteOnce(demands, i, remaining, e, sp);
      RunningStep(net, sp, start, before, w, e, delta, low, d0, d, routed, i, p, u);
      PushLengthPositive(net, before[i].source, before[i].sink, w, sp(w, before[i].source), p, e, u);
      RoutedKeepsDemand(before[i], p, u);
      RunningParts(net, sp, start, demands[..], gdual, e, delta, low, d0, d + Times(Times(e, u), PathLen(w, p)),
                   routed[i := routed[i] + u]);
      d' := CalcD();
    }

    /** The iterations of one demand within a phase. */
    method RouteDemand(demands: array<MfDemand>, i: nat, e: real, d: real, sp: ShortestPaths,
                       ghost start: seq<MfDemand>, ghost delta: real, ghost low: real, ghost cmin: real, ghost d0: real,
                       ghost routed: seq<real>)
      returns (d': real, ghost routed': seq<real>)
      requires i < demands.Length
      requires Running(net, sp, start, demands[..], gdual, e, delta, low, d0, d, routed)
      requires 0.0 < e && delta > 0.0 && low >= 0.0 && i < |routed| && routed[i] == 0.0
      requires cmin > 0.0 && forall x :: x in net.edges ==> x in net.capacity && cmin <= net.capacity[x]
      requires numberFlows == PathCount(demands[..])
      modifies demands, this`gdual, this`numberFlows
      ensures Running(net, sp, start, demands[..], gdual, e, delta, low, d0, d', routed')
      ensures numberFlows == PathCount(demands[..])
      ensures d <= d' && |routed'| == |routed| && (d' < 1.0 ==> routed'[i] == demands[i].demand)
      ensures forall j :: 0 <= j < |routed| && j != i ==> routed'[j] == routed[j]
      ensures forall j :: 0 <= j < demands.Length && j != i ==> demands[j] == old(demands[j])
    {
      hide Times, Running, Fuel;
      RunningParts(net, sp, start, demands[..], gdual, e, delta, low, d0, d, routed);
      var remaining := demands[i].demand;
      d', routed' := d, routed;
      while d' < 1.0 && remaining > 0.0
        invariant Running(net, sp, start, demands[..], gdual, e, delta, low, d0, d', routed')
        invariant numberFlows == PathCount(demands[..])
        invariant |routed'| == |routed| && 0.0 <= remaining == demands[i].demand - routed'[i]
        invariant d <= d'
        invariant forall j :: 0 <= j < |routed| && j != i ==> routed'[j] == routed[j]
        invariant forall j :: 0 <= j < demands.Length && j != i ==> demands[j] == old(demands[j])
        decreases Fuel(remaining, cmin)
      {
        var u;
        u, d' := Advance(demands, i, remaining, e, d', sp, start, delta, low, d0, routed');
        routed' := routed'[i := routed'[i] + u];
        FuelDecreases(remaining, remaining - u, cmin);
        remaining := remaining - u;
      }
    }

    /** One phase: every demand once, in a freshly shuffled order. */
    method RunPhase(demands: array<MfDemand>, order: array<int>, e: real, d: real, sp: ShortestPaths,
                    ghost delta: real, ghost low: real, ghost cmin: real)
      returns (d': real, ghost routed: seq<real>)
      requires IsPermutation(order[..], demands.Length)
      requires SolverInv(net, demands[..], gdual, e, delta, d) && AtLeast(net, gdual, low)
      requires Reaches(net, demands[..], sp)
      requires forall i :: 0 <= i < demands.Length ==> demands[i].demand > 0.0
      requires 0.0 < e && delta > 0.0 && low >= 0.0
      requires cmin > 0.0 && forall x :: x in net.edges ==> x in net.capacity && cmin <= net.capacity[x]
      requires numberFlows == PathCount(demands[..])
      modifies demands, order, this`gdual, this`numberFlows
      ensures IsPermutation(order[..], demands.Length)
      ensures Running(net, sp, old(demands[..]), demands[..], gdual, e, delta, low, d, d', routed)
      ensures numberFlows == PathCount(demands[..])
      ensures d' < 1.0 ==> forall i :: 0 <= i < demands.Length ==> routed[i] == demands[i].demand
    {
      hide Times, SolverInv, AtLeast, Reaches, PhaseInv, UnitsRouted, Running;
      RandomShuffle(order, demands.Length);
      ghost var start, perm := demands[..], order[..];
      d' := d;
      routed := Constant(demands.Length, 0.0);
      RunningStarts(net, sp, start, gdual, e, delta, low, d);
      var j := 0;
      while j < order.Length
        invariant 0 <= j <= order.Length && order[..] == perm
        invariant Running(net, sp, start, demands[..], gdual, e, delta, low, d, d', routed)
        invariant |routed| == demands.Length && numberFlows == PathCount(demands[..])
        invariant forall k :: j <= k < order.Length ==> routed[perm[k]] == 0.0
        invariant d' < 1.0 ==> forall k :: 0 <= k < j ==> routed[perm[k]] == demands[perm[k]].demand
      {
        d', routed := RouteDemand(demands, order[j], e, d', sp, start, delta, low, cmin, d, routed);
        j := j + 1;
      }
      if d' < 1.0 {
        forall i | 0 <= i < demands.Length ensures routed[i] == demands[i].demand {
          assert i in perm;
          var k :| 0 <= k < |perm| && perm[k] == i;
        }
      }
    }

    /** Zero flow everywhere and lengths delta / capacity. */
    method Begin(demands: array<MfDemand>, e: real, delta: real, sp: ShortestPaths, ghost low: real)
      requires net.Valid() && demands.Length > 0 && 0.0 < e < 1.0 && delta > 0.0
      requires Times(|net.edges| as real, delta) < 1.0
      requires Reaches(net, demands[..], sp)
      requires forall i :: 0 <= i < demands.Length ==> demands[i].demand > 0.0
      requires forall x :: x in net.edges ==> x in net.capacity && low <= delta / net.capacity[x]
      modifies demands, this`gdual, this`numberFlows, this`totalPhases
      ensures SameDemands(old(demands[..]), demands[..])
      ensures Between(net, sp, demands[..], gdual, e, delta, low, Times(|net.edges| as real, delta), 0,
                      Times(|net.edges| as real, delta))
      ensures numberFlows == PathCount(demands[..]) && totalPhases == 0
    {
      hide Times, Between, Reaches;
      ghost var given := demands[..];
      OneEdgeAtLeast(net, given, sp, delta);
      ClearFlows(demands);
      numberFlows, totalPhases := 0, 0;
      gdual := InitLengths(net, delta);
      SameReaches(net, given, demands[..], sp);
      InitialInv(net, sp, demands[..], e, delta, low);
      IdlePathCount(demands[..]);
    }

    /** RunPhase seen from between the phases. */
    method NextPhase(demands: array<MfDemand>, order: array<int>, e: real, d: real, sp: ShortestPaths,
                     ghost delta: real, ghost low: real, ghost cmin: real, ghost initial: real)
      returns (d': real)
      requires IsPermutation(order[..], demands.Length)
      requires Between(net, sp, demands[..], gdual, e, delta, low, initial, totalPhases, d)
      requires d < 1.0 && 0.0 < e && delta > 0.0 && low >= 0.0
      requires cmin > 0.0 && forall x :: x in net.edges ==> x in net.capacity && cmin <= net.capacity[x]
      requires numberFlows == PathCount(demands[..])
      modifies demands, order, this`gdual, this`numberFlows, this`totalPhases
      ensures IsPermutation(order[..], demands.Length)
      ensures Between(net, sp, demands[..], gdual, e, delta, low, initial, totalPhases, d')
      ensures totalPhases == old(totalPhases) + 1
      ensures SameDemands(old(demands[..]), demands[..])
      ensures numberFlows == PathCount(demands[..])
      ensures d' < 1.0 ==> d + PhaseGain(old(demands[..]), e, low) <= d'
    {
      hide Times, Between, SolverInv, Running, PhaseGain, Reaches, AtLeast, Constant, IsPermutation;
      ghost var start, w0 := demands[..], gdual;
      BetweenParts(net, sp, start, w0, e, delta, low, initial, totalPhases, d);
      ghost var routed;
      d', routed := RunPhase(demands, order, e, d, sp, delta, low, cmin);
      PhaseCloses(net, sp, start, demands[..], w0, gdual, e, delta, low, initial, totalPhases, d, d', routed);
      totalPhases := totalPhases + 1;
    }

    /** All phases, from zero flow until D is at least 1. */
    method RoutePhases(demands: array<MfDemand>, e: real, delta: real, sp: ShortestPaths)
      returns (ghost low: real)
      requires net.Valid() && demands.Length > 0 && 0.0 < e < 1.0 && delta > 0.0
      requires Times(|net.edges| as real, delta) < 1.0
      requires Reaches(net, demands[..], sp)
      requires forall i :: 0 <= i < demands.Length ==> demands[i].demand > 0.0
      modifies demands, this`gdual, this`numberFlows, this`totalPhases
      ensures low > 0.0 && totalPhases >= 1
      ensures SameDemands(old(demands[..]), demands[..])
      ensures Finished(net, sp, demands[..], gdual, e, delta, low, totalPhases)
      ensures numberFlows == PathCount(demands[..])
    {
      hide Times, Between, PhaseGain, Fuel, Finished, Reaches, IsPermutation, PathCount, Lengths, Dot;
      ghost var given := demands[..];
      ghost var cmin;
      cmin, low := CapacityRange(net.edges, net.capacity, delta);
      ghost var initial := Times(|net.edges| as real, delta);
      Begin(demands, e, delta, sp, low);
      var order := InitialOrder(demands.Length);
      BetweenParts(net, sp, demands[..], gdual, e, delta, low, initial, 0, initial);
      var d := CalcD();
      ghost var gain := PhaseGain(given, e, low);
      PhaseGainPositive(given, e, low);
      while d < 1.0
        invariant IsPermutation(order[..], demands.Length) && fresh(order)
        invariant Between(net, sp, demands[..], gdual, e, delta, low, initial, totalPhases, d)
        invariant numberFlows == PathCount(demands[..])
        invariant SameDemands(given, demands[..])
        invariant totalPhases == 0 ==> d == initial
        decreases Fuel(1.0 - d, gain)
      {
        ghost var d0 := d;
        SameGain(given, demands[..], e, low);
        d := NextPhase(demands, order, e, d, sp, delta, low, cmin, initial);
        FuelDecreases(1.0 - d0, 1.0 - d, gain);
      }
      FinishedIntro(net, sp, demands[..], gdual, e, delta, low, totalPhases, d);
    }

    method CalcLambda(demands: array<MfDemand>)
      requires forall i :: 0 <= i < demands.Length ==> demands[i].demand > 0.0
      modifies this`lambda
      ensures lambda <= dblMax
      ensures forall i :: 0 <= i < demands.Length ==> lambda <= demands[i].flow / demands[i].demand
      ensures lambda == dblMax || exists i :: 0 <= i < demands.Length && lambda == demands[i].flow / demands[i].demand
    {
      lambda := dblMax;
      var i := 0;
      while i < demands.Length
        invariant 0 <= i <= demands.Length && lambda <= dblMax
        invariant forall j :: 0 <= j < i ==> lambda <= demands[j].flow / demands[j].demand
        invariant lambda == dblMax || exists j :: 0 <= j < i && lambda == demands[j].flow / demands[j].demand
      {
        var ratio := demands[i].flow / demands[i].demand;
        lambda := if ratio < lambda then ratio else lambda;
        i := i + 1;
      }
    }

    /** D divided by the cost of serving every demand once at the current lengths. */
    method CalcBeta(demands: array<MfDemand>, sp: ShortestPaths)
      requires net.Valid() && Lengths(net, gdual) && demands.Length > 0
      requires Reaches(net, demands[..], sp)
      requires forall i :: 0 <= i < demands.Length ==> demands[i].demand > 0.0
      modifies this`beta
      ensures Alpha(demands[..], DistSeq(sp, gdual, demands[..])) > 0.0
      ensures Times(beta, Alpha(demands[..], DistSeq(sp, gdual, demands[..]))) == Dot(net.edges, gdual, net.capacity)
    {
      hide Times, Dot, Reaches, Lengths, HasShortest;
      ghost var ds := demands[..];
      ghost var dist := DistSeq(sp, gdual, ds);
      DistMonotone(net, ds, sp, gdual, gdual);
      AlphaPositive(ds, dist);
      var alpha := 0.0;
      var i := 0;
      while i < demands.Length
        invariant 0 <= i <= demands.Length
        invariant alpha == SeqDot(DemandsOf(ds)[..i], dist[..i])
      {
        assert DemandsOf(ds)[..i + 1][..i] == DemandsOf(ds)[..i] && dist[..i + 1][..i] == dist[..i];
        alpha := alpha + Times(demands[i].demand, Dist(sp, gdual, demands[i]));
        i := i + 1;
      }
      assert DemandsOf(ds)[..i] == DemandsOf(ds) && dist[..i] == dist;
      var d := CalcD();
      beta := d / alpha;
      DivideTimes(d, alpha);
    }

    method RescaleDemandsFlows(demands: array<MfDemand>, scale: real)
      modifies demands
      ensures demands[..] == ScaleAll(old(demands[..]), scale)
    {
      hide Times;
      ghost var before := demands[..];
      var i := 0;
      while i < demands.Length
        invariant 0 <= i <= demands.Length
        invariant forall j :: 0 <= j < i ==> demands[j] == ScaleDemand(before[j], scale)
        invariant forall j :: i <= j < demands.Length ==> demands[j] == before[j]
      {
        var m := demands[i].pathFlow;
        var keys := m.Keys;
        while keys != {}
          invariant keys <= m.Keys == before[i].pathFlow.Keys
          invariant forall p :: p in m ==>
            m[p] == if p in keys then before[i].pathFlow[p] else Times(before[i].pathFlow[p], scale)
          decreases keys
        {
          var p :| p in keys;
          m := m[p := Times(m[p], scale)];
          keys := keys - {p};
        }
        demands[i] := demands[i].(flow := Times(demands[i].flow, scale), pathFlow := m);
        assert demands[i] == ScaleDemand(before[i], scale);
        i := i + 1;
      }
    }

    /** The solver; scalef is 1 over the logarithm of 1 / delta to base 1 + e. */
    method MaxConcurrentFlow(demands: array<MfDemand>, e: real, delta: real, scalef: real, sp: ShortestPaths)
      returns (ghost raw: seq<MfDemand>, ghost low: real)
      requires net.Valid() && demands.Length > 0 && 0.0 < e < 1.0 && delta > 0.0 && scalef > 0.0
      requires Times(|net.edges| as real, delta) < 1.0
      requires Reaches(net, demands[..], sp)
      requires forall i :: 0 <= i < demands.Length ==> demands[i].demand > 0.0
      modifies demands, this
      ensures SameDemands(old(demands[..]), raw)
      ensures low > 0.0 && totalPhases >= 1 && Finished(net, sp, raw, gdual, e, delta, low, totalPhases)
      ensures demands[..] == ScaleAll(raw, scalef)
      ensures AllConserve(net.edges, demands[..])
      ensures numberFlows == PathCount(raw)
      ensures forall i :: 0 <= i < demands.Length ==> lambda <= demands[i].flow / demands[i].demand
      ensures lambda == dblMax || exists i :: 0 <= i < demands.Length && lambda == demands[i].flow / demands[i].demand
      ensures forall kappa: real :: LoadsWithin(net, demands[..], kappa) ==> lambda <= Times(kappa, beta)
    {
      hide Times, Finished, Conserves, Load, Reaches, Alpha, Lengths, DistSeq, Dot, PathCount, ScaleAll;
      low := RoutePhases(demands, e, delta, sp);
      raw := demands[..];
      RescaleDemandsFlows(demands, scalef);
      ScaledParts(net, sp, raw, gdual, e, delta, low, totalPhases, scalef);
      ghost var ds := demands[..];
      assert forall i :: 0 <= i < demands.Length ==> demands[i] == ds[i];
      CalcLambda(demands);
      CalcBeta(demands, sp);
      LambdaBelowBeta(net, ds, gdual, sp, lambda, beta);
    }
  }

  // ---------- helpers of the methods ----------

  function InitLengths(n: Network, delta: real): (w: EdgeMap)
    requires n.Valid()
    ensures w == InitialLengths(n, delta)
  {
    map x | x in n.edges :: delta / n.capacity[x]
  }

  method InitialOrder(n: nat) returns (order: array<int>)
    ensures fresh(order) && IsPermutation(order[..], n)
  {
    order := new int[n];
    var i := 0;
    while i < n
      invariant 0 <= i <= n
      invariant forall j :: 0 <= j < i ==> order[j] == j
    {
      order[i] := i;
      i := i + 1;
    }
    forall v | 0 <= v < n ensures v in order[..] {
      assert order[..][v] == v;
    }
  }

  method ClearFlows(demands: array<MfDemand>)
    modifies demands
    ensures Idle(demands[..]) && SameDemands(old(demands[..]), demands[..])
  {
    var i := 0;
    while i < demands.Length
      invariant 0 <= i <= demands.Length
      invariant forall j :: 0 <= j < i ==> demands[j] == old(demands[j]).(flow := 0.0, pathFlow := map[])
      invariant forall j :: i <= j < demands.Length ==> demands[j] == old(demands[j])
    {
      demands[i] := demands[i].(flow := 0.0, pathFlow := map[]);
      i := i + 1;
    }
  }

  lemma {:induction false} IdlePathCount(ds: seq<MfDemand>)
    requires Idle(ds)
    ensures PathCount(ds) == 0
  {
    if ds != [] {
      IdlePathCount(ds[..|ds| - 1]);
    }
  }

  lemma BetweenParts(n: Network, sp: ShortestPaths, ds: seq<MfDemand>, w: EdgeMap,
                     e: real, delta: real, low: real, initial: real, k: nat, d: real)
    requires Between(n, sp, ds, w, e, delta, low, initial, k, d)
    ensures SolverInv(n, ds, w, e, delta, d) && AtLeast(n, w, low) && Reaches(n, ds, sp)
    ensures n.Valid() && Lengths(n, w) && d == Dot(n.edges, w, n.capacity)
    ensures forall i :: 0 <= i < |ds| ==> ds[i].demand > 0.0
  {
  }

  lemma FinishedIntro(n: Network, sp: ShortestPaths, ds: seq<MfDemand>, w: EdgeMap, e: real, delta: real, low: real, k: nat, d: real)
    requires Between(n, sp, ds, w, e, delta, low, Times(|n.edges| as real, delta), k, d) && d >= 1.0
    ensures Finished(n, sp, ds, w, e, delta, low, k)
  {
    hide Times, GrowthBound, Served, Reaches, AtLeast;
  }

  lemma FinishedParts(n: Network, sp: ShortestPaths, raw: seq<MfDemand>, w: EdgeMap, e: real, delta: real, low: real, k: nat)
    requires Finished(n, sp, raw, w, e, delta, low, k)
    ensures n.Valid() && Lengths(n, w) && AllConserve(n.edges, raw) && Reaches(n, raw, sp)
    ensures forall i :: 0 <= i < |raw| ==> raw[i].demand > 0.0
  {
  }

  /** A route exists, so there is an edge and delta is below 1. */
  lemma OneEdgeAtLeast(n: Network, ds: seq<MfDemand>, sp: ShortestPaths, delta: real)
    requires n.Valid() && ds != [] && Reaches(n, ds, sp) && delta > 0.0
    requires Times(|n.edges| as real, delta) < 1.0
    ensures |n.edges| >= 1 && delta < 1.0
  {
    var l := map x | x in n.edges :: 1.0;
    assert Lengths(n, l);
    assert HasShortest(n, l, ds[0].source, ds[0].sink, sp(l, ds[0].source));
    var p :| ShortestRoute(n.edges, l, ds[0].source, ds[0].sink, sp(l, ds[0].source), p);
    assert Edge(p[0], p[0 + 1]) in n.edges;
    TimesMonotone(1.0, |n.edges| as real, delta);
  }

  lemma AlphaPositive(ds: seq<MfDemand>, dist: seq<real>)
    requires |ds| == |dist| > 0
    requires forall i :: 0 <= i < |ds| ==> ds[i].demand > 0.0 && dist[i] > 0.0
    ensures Alpha(ds, dist) > 0.0
  {
    assert DemandsOf(ds)[0] > 0.0;
    SeqDotPositive(DemandsOf(ds), dist);
  }

  lemma DivideTimes(d: real, a: real)
    requires a > 0.0
    ensures Times(d / a, a) == d
  {
  }

  lemma ScaledParts(n: Network, sp: ShortestPaths, raw: seq<MfDemand>, w: EdgeMap, e: real, delta: real, low: real, k: nat,
                    scale: real)
    requires Finished(n, sp, raw, w, e, delta, low, k) && scale > 0.0
    ensures n.Valid() && Lengths(n, w)
    ensures AllConserve(n.edges, ScaleAll(raw, scale)) && Reaches(n, ScaleAll(raw, scale), sp)
    ensures forall i :: 0 <= i < |raw| ==> ScaleAll(raw, scale)[i].demand > 0.0
  {
    hide Times, Conserves, Reaches;
    FinishedParts(n, sp, raw, w, e, delta, low, k);
    forall i | 0 <= i < |raw| ensures Conserves(n.edges, ScaleAll(raw, scale)[i]) {
      ScaleConserves(n.edges, raw[i], scale);
    }
    SameReaches(n, raw, ScaleAll(raw, scale), sp);
  }

  /** Weak duality for the two figures the solver reports. */
  lemma LambdaBelowBeta(n: Network, ds: seq<MfDemand>, w: EdgeMap, sp: ShortestPaths, lambda: real, beta: real)
    requires n.Valid() && Lengths(n, w) && Reaches(n, ds, sp) && AllConserve(n.edges, ds)
    requires forall i :: 0 <= i < |ds| ==> ds[i].demand > 0.0 && lambda <= ds[i].flow / ds[i].demand
    requires Alpha(ds, DistSeq(sp, w, ds)) > 0.0
    requires Times(beta, Alpha(ds, DistSeq(sp, w, ds))) == Dot(n.edges, w, n.capacity)
    ensures forall kappa: real :: LoadsWithin(n, ds, kappa) ==> lambda <= Times(kappa, beta)
  {
    hide Times, Dot, Alpha, Load, Conserves, RouteBound;
    var dist := DistSeq(sp, w, ds);
    forall i | 0 <= i < |ds|
      ensures 0.0 <= dist[i] && LowerBound(n.edges, ds[i], w, dist[i])
      ensures ds[i].flow >= Times(lambda, ds[i].demand)
    {
      DistProperties(n, ds, sp, w, i);
      DivideTimes(ds[i].flow, ds[i].demand);
      TimesMonotone(lambda, ds[i].flow / ds[i].demand, ds[i].demand);
    }
    forall kappa: real | LoadsWithin(n, ds, kappa) ensures lambda <= Times(kappa, beta) {
      WeakDuality(n, ds, w, dist, lambda, kappa);
      var a := Alpha(ds, dist);
      TimesAssociates(kappa, beta, a);
      if lambda > Times(kappa, beta) {
        TimesLess(Times(kappa, beta), lambda, a);
      }
    }
  }

  /** No edge carries more than kappa times its capacity. */
  ghost predicate LoadsWithin(n: Network, ds: seq<MfDemand>, kappa: real)
    requires n.Valid()
  {
    forall x :: x in n.edges ==> Load(ds, x) <= Times(kappa, n.capacity[x])
  }

  lemma RoutedKeepsDemand(d: MfDemand, p: Path, u: real)
    ensures Routed(d, p, u).demand == d.demand
  {
  }

  lemma PushLengthPositive(n: Network, s: Vertex, t: Vertex, w: EdgeMap, tree: Tree, p: Path, e: real, u: real)
    requires n.Valid() && Lengths(n, w) && ShortestRoute(n.edges, w, s, t, tree, p) && e > 0.0 && u > 0.0
    ensures Times(Times(e, u), PathLen(w, p)) > 0.0
  {
    hide Times;
    RouteLengthPositive(n.edges, w, s, t, p);
    TimesSign(e, u);
    TimesSign(Times(e, u), PathLen(w, p));
  }
}
