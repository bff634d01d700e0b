/**
 Capacitated directed graphs without parallel edges, paths given source first, flows kept as
 maps from paths to amounts, and the sums over edges and over paths that the max-concurrent-flow
 solver is about.
 */
module FlowNetwork {
  import opened RealArithmetic

  type Vertex = nat
  type Path = seq<Vertex>
  datatype Edge = Edge(src: Vertex, dst: Vertex)
  type EdgeMap = map<Edge, real>

  datatype Network = Network(edges: seq<Edge>, capacity: EdgeMap) {
    ghost predicate Valid() {
      && Distinct(edges)
      && (forall x :: x in edges <==> x in capacity)
      && Positive(edges, capacity)
    }
  }

  /** What one run of Dijkstra's algorithm returns: predecessors and distances. */
  datatype Tree = Tree(penult: map<Vertex, Vertex>, dist: map<Vertex, real>)

  datatype MfDemand = MfDemand(source: Vertex, sink: Vertex, demand: real, flow: real, pathFlow: map<Path, real>)

  function At(m: EdgeMap, x: Edge): real {
    if x in m then m[x] else 0.0
  }

  ghost predicate Distinct(edges: seq<Edge>) {
    forall i, j :: 0 <= i < j < |edges| ==> edges[i] != edges[j]
  }

  ghost predicate Positive(edges: seq<Edge>, l: EdgeMap) {
    forall x :: x in edges ==> x in l && l[x] > 0.0
  }

  // ---------- paths ----------

  ghost predicate Simple(p: Path) {
    forall i, j :: 0 <= i < j < |p| ==> p[i] != p[j]
  }

  ghost predicate PathIn(edges: seq<Edge>, p: Path) {
    forall i :: 0 <= i < |p| - 1 ==> Edge(p[i], p[i + 1]) in edges
  }

  ghost predicate OnPath(x: Edge, p: Path) {
    exists i :: 0 <= i < |p| - 1 && x.src == p[i] && x.dst == p[i + 1]
  }

  /** A simple path of at least one hop from s to t. */
  ghost predicate IsRoute(edges: seq<Edge>, s: Vertex, t: Vertex, p: Path) {
    |p| >= 2 && p[0] == s && p[|p| - 1] == t && Simple(p) && PathIn(edges, p)
  }

  function LastEdge(p: Path): Edge
    requires |p| >= 2
  {
    Edge(p[|p| - 2], p[|p| - 1])
  }

  ghost function PathLen(l: EdgeMap, p: Path): real {
    if |p| < 2 then 0.0 else At(l, LastEdge(p)) + PathLen(l, p[..|p| - 1])
  }

  /** p is what following the predecessors from t back to s spells. */
  ghost predicate TreePath(penult: map<Vertex, Vertex>, p: Path) {
    && (forall i :: 0 <= i < |p| ==> p[i] in penult)
    && (forall i :: 0 <= i < |p| - 1 ==> penult[p[i + 1]] == p[i])
  }

  ghost predicate ShortestRoute(edges: seq<Edge>, l: EdgeMap, s: Vertex, t: Vertex, tree: Tree, p: Path) {
    && IsRoute(edges, s, t, p)
    && TreePath(tree.penult, p)
    && t in tree.dist && tree.dist[t] == PathLen(l, p)
    && RouteBound(edges, s, t, l, tree.dist[t])
  }

  // ---------- sums over edges ----------

  /** The sum over the edges of a(x) * b(x). */
  ghost function Dot(edges: seq<Edge>, a: EdgeMap, b: EdgeMap): real {
    if edges == [] then 0.0
    else Dot(edges[..|edges| - 1], a, b) + Times(At(a, edges[|edges| - 1]), At(b, edges[|edges| - 1]))
  }

  lemma {:induction false} DotAddScaled(edges: seq<Edge>, a: EdgeMap, b: EdgeMap, k: real, d: EdgeMap, r: EdgeMap)
    requires forall x :: x in edges ==> At(r, x) == At(b, x) + Times(k, At(d, x))
    ensures Dot(edges, a, r) == Dot(edges, a, b) + Times(k, Dot(edges, a, d))
  {
    hide Times;
    if edges == [] {
      TimesUnits(k);
    } else {
      var x := edges[|edges| - 1];
      var rest := edges[..|edges| - 1];
      DotAddScaled(rest, a, b, k, d, r);
      TimesDistributes(At(a, x), At(b, x), Times(k, At(d, x)));
      TimesCommutes(At(a, x), Times(k, At(d, x)));
      TimesAssociates(k, At(d, x), At(a, x));
      TimesCommutes(At(d, x), At(a, x));
      TimesDistributes(k, Dot(rest, a, d), Times(At(a, x), At(d, x)));
    }
  }

  lemma {:induction false} DotMonotone(edges: seq<Edge>, a: EdgeMap, b: EdgeMap, d: EdgeMap)
    requires forall x :: x in edges ==> At(a, x) >= 0.0 && At(b, x) <= At(d, x)
    ensures Dot(edges, a, b) <= Dot(edges, a, d)
  {
    hide Times;
    if edges != [] {
      var x := edges[|edges| - 1];
      DotMonotone(edges[..|edges| - 1], a, b, d);
      TimesMonotone(At(b, x), At(d, x), At(a, x));
    }
  }

  lemma {:induction false} DotSymmetric(edges: seq<Edge>, a: EdgeMap, b: EdgeMap)
    ensures Dot(edges, a, b) == Dot(edges, b, a)
  {
    hide Times;
    if edges != [] {
      DotSymmetric(edges[..|edges| - 1], a, b);
      TimesCommutes(At(a, edges[|edges| - 1]), At(b, edges[|edges| - 1]));
    }
  }

  lemma {:induction false} DotNonNegative(edges: seq<Edge>, a: EdgeMap, b: EdgeMap)
    requires forall x :: x in edges ==> At(a, x) >= 0.0 && At(b, x) >= 0.0
    ensures Dot(edges, a, b) >= 0.0
    ensures forall x :: x in edges ==> Times(At(a, x), At(b, x)) <= Dot(edges, a, b)
  {
    hide Times;
    if edges != [] {
      var x := edges[|edges| - 1];
      DotNonNegative(edges[..|edges| - 1], a, b);
      TimesSign(At(a, x), At(b, x));
      forall y | y in edges ensures Times(At(a, y), At(b, y)) <= Dot(edges, a, b) {
        assert y == x || y in edges[..|edges| - 1];
      }
    }
  }

  lemma {:induction false} DotUnit(edges: seq<Edge>, a: EdgeMap, d: EdgeMap, y: Edge)
    requires Distinct(edges)
    requires forall x :: x in edges ==> At(d, x) == if x == y then 1.0 else 0.0
    ensures Dot(edges, a, d) == if y in edges then At(a, y) else 0.0
  {
    hide Times;
    if edges != [] {
      var n := |edges| - 1;
      DotUnit(edges[..n], a, d, y);
      TimesUnits(At(a, edges[n]));
      assert y in edges <==> y in edges[..n] || y == edges[n];
    }
  }

  ghost function Chi(edges: seq<Edge>, p: Path): EdgeMap {
    map x | x in edges :: if OnPath(x, p) then 1.0 else 0.0
  }

  lemma OnPathExtend(x: Edge, p: Path)
    requires |p| >= 2 && Simple(p)
    ensures OnPath(x, p) <==> OnPath(x, p[..|p| - 1]) || x == LastEdge(p)
    ensures !OnPath(LastEdge(p), p[..|p| - 1])
  {
    var q := p[..|p| - 1];
    if OnPath(x, p) {
      var i :| 0 <= i < |p| - 1 && x.src == p[i] && x.dst == p[i + 1];
      if i < |p| - 2 {
        assert x.src == q[i] && x.dst == q[i + 1];
      }
    }
    if OnPath(x, q) {
      var i :| 0 <= i < |q| - 1 && x.src == q[i] && x.dst == q[i + 1];
      assert x.src == p[i] && x.dst == p[i + 1];
    }
    if x == LastEdge(p) {
      assert x.src == p[|p| - 2] && x.dst == p[|p| - 2 + 1];
    }
  }

  /** The length of a simple path is a sum over all edges, each weighted by whether the path uses it. */
  lemma {:induction false} PathLenIsDot(edges: seq<Edge>, l: EdgeMap, p: Path)
    requires Distinct(edges) && Simple(p) && PathIn(edges, p)
    ensures PathLen(l, p) == Dot(edges, l, Chi(edges, p))
  {
    hide Times;
    if |p| < 2 {
      DotUnitNone(edges, l, Chi(edges, p));
    } else {
      var q := p[..|p| - 1];
      var y := LastEdge(p);
      assert PathIn(edges, q);
      PathLenIsDot(edges, l, q);
      var d := map x | x in edges :: if x == y then 1.0 else 0.0;
      DotUnit(edges, l, d, y);
      forall x | x in edges ensures At(Chi(edges, p), x) == At(Chi(edges, q), x) + Times(1.0, At(d, x)) {
        OnPathExtend(x, p);
        TimesUnits(At(d, x));
      }
      DotAddScaled(edges, l, Chi(edges, q), 1.0, d, Chi(edges, p));
      TimesUnits(Dot(edges, l, d));
      assert Edge(p[|p| - 2], p[|p| - 2 + 1]) in edges;
    }
  }

  lemma {:induction false} DotUnitNone(edges: seq<Edge>, a: EdgeMap, d: EdgeMap)
    requires forall x :: x in edges ==> At(d, x) == 0.0
    ensures Dot(edges, a, d) == 0.0
  {
    hide Times;
    if edges != [] {
      TimesUnits(At(a, edges[|edges| - 1]));
      DotUnitNone(edges[..|edges| - 1], a, d);
    }
  }

  lemma {:induction false} PathLenMonotone(l: EdgeMap, l': EdgeMap, p: Path)
    requires forall i :: 0 <= i < |p| - 1 ==> At(l, Edge(p[i], p[i + 1])) <= At(l', Edge(p[i], p[i + 1]))
    ensures PathLen(l, p) <= PathLen(l', p)
  {
    if |p| >= 2 {
      assert Edge(p[|p| - 2], p[|p| - 2 + 1]) == LastEdge(p);
      PathLenMonotone(l, l', p[..|p| - 1]);
    }
  }

  lemma {:induction false} PathLenAtLeast(edges: seq<Edge>, l: EdgeMap, p: Path, low: real)
    requires |p| >= 2 && PathIn(edges, p) && Positive(edges, l)
    requires low >= 0.0 && forall x :: x in edges ==> At(l, x) >= low
    ensures PathLen(l, p) >= low && PathLen(l, p) > 0.0
  {
    var q := p[..|p| - 1];
    assert Edge(p[|p| - 2], p[|p| - 2 + 1]) == LastEdge(p);
    if |q| >= 2 {
      assert PathIn(edges, q);
      PathLenAtLeast(edges, l, q, low);
    }
  }

  // ---------- sums over path flows ----------

  /** The sum over the paths of m of (flow on the path) * g(path). */
  ghost function Weigh(m: map<Path, real>, g: Path -> real): real
    decreases |m|
  {
    if m == map[] then 0.0
    else
      var p :| p in m;
      Times(m[p], g(p)) + Weigh(m - {p}, g)
  }

  lemma {:induction false} WeighRemove(m: map<Path, real>, g: Path -> real, p: Path)
    requires p in m
    ensures Weigh(m, g) == Times(m[p], g(p)) + Weigh(m - {p}, g)
    decreases |m|
  {
    hide Times;
    var q :| q in m && Weigh(m, g) == Times(m[q], g(q)) + Weigh(m - {q}, g);
    if q != p {
      WeighRemove(m - {q}, g, p);
      WeighRemove(m - {p}, g, q);
      assert m - {q} - {p} == m - {p} - {q};
    }
  }

  ghost function One(): Path -> real {
    (p: Path) => 1.0
  }

  ghost function Through(x: Edge): Path -> real {
    (p: Path) => if OnPath(x, p) then 1.0 else 0.0
  }

  ghost function LengthOf(l: EdgeMap): Path -> real {
    (p: Path) => PathLen(l, p)
  }

  function AddFlow(m: map<Path, real>, p: Path, u: real): map<Path, real> {
    if p in m then m[p := m[p] + u] else m[p := u]
  }

  lemma WeighAddFlow(m: map<Path, real>, p: Path, u: real, g: Path -> real)
    ensures Weigh(AddFlow(m, p, u), g) == Weigh(m, g) + Times(u, g(p))
  {
    hide Times;
    var m' := AddFlow(m, p, u);
    WeighRemove(m', g, p);
    if p in m {
      WeighRemove(m, g, p);
      assert m' - {p} == m - {p};
      TimesDistributes(g(p), m[p], u);
    } else {
      assert m' - {p} == m;
    }
  }

  lemma {:induction false} WeighScale(m: map<Path, real>, m': map<Path, real>, k: real, g: Path -> real)
    requires m'.Keys == m.Keys && forall p :: p in m ==> m'[p] == Times(m[p], k)
    ensures Weigh(m', g) == Times(k, Weigh(m, g))
    decreases |m|
  {
    hide Times;
    if m == map[] {
      assert m' == map[];
      TimesUnits(k);
    } else {
      var p :| p in m;
      assert p in m';
      WeighRemove(m, g, p);
      WeighRemove(m', g, p);
      assert (m' - {p}).Keys == (m - {p}).Keys;
      WeighScale(m - {p}, m' - {p}, k, g);
      TimesCommutes(m[p], k);
      TimesAssociates(k, m[p], g(p));
      TimesDistributes(k, Times(m[p], g(p)), Weigh(m - {p}, g));
    }
  }

  /** Every path of m is a route of the demand and carries a positive amount. */
  ghost predicate RoutesOf(edges: seq<Edge>, s: Vertex, t: Vertex, m: map<Path, real>) {
    forall p :: p in m ==> IsRoute(edges, s, t, p) && m[p] > 0.0
  }

  ghost predicate RouteBound(edges: seq<Edge>, s: Vertex, t: Vertex, l: EdgeMap, b: real) {
    forall q :: IsRoute(edges, s, t, q) ==> b <= PathLen(l, q)
  }

  lemma {:induction false} WeighAtLeast(edges: seq<Edge>, s: Vertex, t: Vertex, m: map<Path, real>, l: EdgeMap, d: real)
    requires RoutesOf(edges, s, t, m) && RouteBound(edges, s, t, l, d)
    ensures Weigh(m, LengthOf(l)) >= Times(Weigh(m, One()), d)
    decreases |m|
  {
    hide Times, IsRoute, PathLen;
    if m == map[] {
      TimesUnits(d);
    } else {
      var p :| p in m;
      WeighRemove(m, LengthOf(l), p);
      WeighRemove(m, One(), p);
      WeighAtLeast(edges, s, t, m - {p}, l, d);
      TimesMonotone(d, PathLen(l, p), m[p]);
      TimesUnits(m[p]);
      TimesDistributes(d, m[p], Weigh(m - {p}, One()));
    }
  }

  lemma {:induction false} WeighNonNegative(edges: seq<Edge>, s: Vertex, t: Vertex, m: map<Path, real>, x: Edge)
    requires RoutesOf(edges, s, t, m)
    ensures 0.0 <= Weigh(m, Through(x)) <= Weigh(m, One())
    decreases |m|
  {
    hide Times;
    if m != map[] {
      var p :| p in m;
      WeighRemove(m, Through(x), p);
      WeighRemove(m, One(), p);
      WeighNonNegative(edges, s, t, m - {p}, x);
      TimesUnits(m[p]);
    }
  }

  // ---------- loads ----------

  /** The flow all demands together put on edge x. */
  ghost function Load(ds: seq<MfDemand>, x: Edge): real {
    if ds == [] then 0.0
    else Load(ds[..|ds| - 1], x) + Weigh(ds[|ds| - 1].pathFlow, Through(x))
  }

  ghost function LoadMap(edges: seq<Edge>, ds: seq<MfDemand>): EdgeMap {
    map x | x in edges :: Load(ds, x)
  }

  /** The sum over all paths of all demands of flow * length. */
  ghost function Cost(ds: seq<MfDemand>, l: EdgeMap): real {
    if ds == [] then 0.0
    else Cost(ds[..|ds| - 1], l) + Weigh(ds[|ds| - 1].pathFlow, LengthOf(l))
  }

  ghost predicate Conserves(edges: seq<Edge>, d: MfDemand) {
    && RoutesOf(edges, d.source, d.sink, d.pathFlow)
    && d.flow == Weigh(d.pathFlow, One())
  }

  ghost predicate AllConserve(edges: seq<Edge>, ds: seq<MfDemand>) {
    forall i :: 0 <= i < |ds| ==> Conserves(edges, ds[i])
  }

  ghost function LoadOf(edges: seq<Edge>, m: map<Path, real>): EdgeMap {
    map x | x in edges :: Weigh(m, Through(x))
  }

  lemma LoadOfRemove(edges: seq<Edge>, m: map<Path, real>, p: Path)
    requires p in m
    ensures forall x :: x in edges ==>
      At(LoadOf(edges, m), x) == At(LoadOf(edges, m - {p}), x) + Times(m[p], At(Chi(edges, p), x))
  {
    hide Times, OnPath;
    forall x | x in edges
      ensures At(LoadOf(edges, m), x) == At(LoadOf(edges, m - {p}), x) + Times(m[p], At(Chi(edges, p), x))
    {
      WeighRemove(m, Through(x), p);
    }
  }

  lemma InterchangeNone(edges: seq<Edge>, l: EdgeMap)
    ensures Dot(edges, l, LoadOf(edges, map[])) == 0.0 && Weigh(map[], LengthOf(l)) == 0.0
  {
    DotUnitNone(edges, l, LoadOf(edges, map[]));
  }

  lemma RoutesOfRest(edges: seq<Edge>, s: Vertex, t: Vertex, m: map<Path, real>, p: Path)
    requires RoutesOf(edges, s, t, m) && p in m
    ensures RoutesOf(edges, s, t, m - {p}) && Simple(p) && PathIn(edges, p)
  {
  }

  lemma {:induction false} InterchangeOne(edges: seq<Edge>, s: Vertex, t: Vertex, m: map<Path, real>, l: EdgeMap)
    requires Distinct(edges) && RoutesOf(edges, s, t, m)
    ensures Dot(edges, l, LoadOf(edges, m)) == Weigh(m, LengthOf(l))
    decreases |m|
  {
    hide Times, Dot, LoadOf, Chi, PathLen, Weigh, RoutesOf;
    if m == map[] {
      InterchangeNone(edges, l);
    } else {
      var p :| p in m;
      RoutesOfRest(edges, s, t, m, p);
      InterchangeOne(edges, s, t, m - {p}, l);
      WeighRemove(m, LengthOf(l), p);
      PathLenIsDot(edges, l, p);
      LoadOfRemove(edges, m, p);
      DotAddScaled(edges, l, LoadOf(edges, m - {p}), m[p], Chi(edges, p), LoadOf(edges, m));
    }
  }

  /** Summing length times load over the edges is summing flow times path length over the paths. */
  lemma {:induction false} Interchange(edges: seq<Edge>, ds: seq<MfDemand>, l: EdgeMap)
    requires Distinct(edges) && AllConserve(edges, ds)
    ensures Dot(edges, l, LoadMap(edges, ds)) == Cost(ds, l)
  {
    hide Times;
    if ds == [] {
      DotUnitNone(edges, l, LoadMap(edges, ds));
    } else {
      var rest, d := ds[..|ds| - 1], ds[|ds| - 1];
      Interchange(edges, rest, l);
      InterchangeOne(edges, d.source, d.sink, d.pathFlow, l);
      forall x | x in edges
        ensures At(LoadMap(edges, ds), x) == At(LoadMap(edges, rest), x) + Times(1.0, At(LoadOf(edges, d.pathFlow), x))
      {
        TimesUnits(At(LoadOf(edges, d.pathFlow), x));
      }
      DotAddScaled(edges, l, LoadMap(edges, rest), 1.0, LoadOf(edges, d.pathFlow), LoadMap(edges, ds));
      TimesUnits(Dot(edges, l, LoadOf(edges, d.pathFlow)));
    }
  }

  // ---------- weak duality ----------

  /** dist[i] bounds from below the length of every route of demand i. */
  ghost predicate Distances(edges: seq<Edge>, ds: seq<MfDemand>, l: EdgeMap, dist: seq<real>) {
    |dist| == |ds| && forall i :: 0 <= i < |ds| ==> 0.0 <= dist[i] && LowerBound(edges, ds[i], l, dist[i])
  }

  ghost predicate LowerBound(edges: seq<Edge>, d: MfDemand, l: EdgeMap, b: real) {
    RouteBound(edges, d.source, d.sink, l, b)
  }

  ghost function SeqDot(a: seq<real>, b: seq<real>): real
    requires |a| == |b|
  {
    if a == [] then 0.0 else SeqDot(a[..|a| - 1], b[..|b| - 1]) + Times(a[|a| - 1], b[|b| - 1])
  }

  ghost function DemandsOf(ds: seq<MfDemand>): (a: seq<real>)
    ensures |a| == |ds| && forall i :: 0 <= i < |ds| ==> a[i] == ds[i].demand
  {
    seq(|ds|, i requires 0 <= i < |ds| => ds[i].demand)
  }

  /** The cost of serving each demand once at the given distances. */
  ghost function Alpha(ds: seq<MfDemand>, dist: seq<real>): real
    requires |dist| == |ds|
  {
    SeqDot(DemandsOf(ds), dist)
  }

  lemma {:induction false} SeqDotMonotone(a: seq<real>, b: seq<real>, d: seq<real>)
    requires |a| == |b| == |d|
    requires forall i :: 0 <= i < |a| ==> a[i] >= 0.0 && b[i] <= d[i]
    ensures SeqDot(a, b) <= SeqDot(a, d)
    ensures SeqDot(b, a) <= SeqDot(d, a)
  {
    hide Times;
    if a != [] {
      var n := |a| - 1;
      SeqDotMonotone(a[..n], b[..n], d[..n]);
      TimesMonotone(b[n], d[n], a[n]);
    }
  }

  lemma {:induction false} SeqDotUpdate(a: seq<real>, b: seq<real>, i: nat, u: real)
    requires |a| == |b| && i < |a|
    ensures SeqDot(a[i := a[i] + u], b) == SeqDot(a, b) + Times(u, b[i])
  {
    hide Times;
    var n := |a| - 1;
    var a' := a[i := a[i] + u];
    if i == n {
      assert a'[..n] == a[..n];
      TimesDistributes(b[n], a[n], u);
    } else {
      assert a'[..n] == a[..n][i := a[..n][i] + u];
      SeqDotUpdate(a[..n], b[..n], i, u);
    }
  }

  lemma {:induction false} SeqDotPositive(a: seq<real>, b: seq<real>)
    requires |a| == |b|
    requires forall i :: 0 <= i < |a| ==> a[i] >= 0.0 && b[i] >= 0.0
    ensures SeqDot(a, b) >= 0.0
    ensures (exists i :: 0 <= i < |a| && a[i] > 0.0 && b[i] > 0.0) ==> SeqDot(a, b) > 0.0
  {
    hide Times;
    if a != [] {
      var n := |a| - 1;
      SeqDotPositive(a[..n], b[..n]);
      TimesSign(a[n], b[n]);
      if i :| 0 <= i < |a| && a[i] > 0.0 && b[i] > 0.0 {
        assert i < n ==> a[..n][i] > 0.0 && b[..n][i] > 0.0;
      }
    }
  }

  lemma {:induction false} CostAtLeastAlpha(edges: seq<Edge>, ds: seq<MfDemand>, l: EdgeMap, dist: seq<real>, ratio: real)
    requires AllConserve(edges, ds) && Distances(edges, ds, l, dist)
    requires forall i :: 0 <= i < |ds| ==> ds[i].flow >= Times(ratio, ds[i].demand)
    ensures Times(ratio, Alpha(ds, dist)) <= Cost(ds, l)
  {
    hide Times;
    if ds == [] {
      TimesUnits(ratio);
    } else {
      var n := |ds| - 1;
      var d := ds[n];
      assert LowerBound(edges, d, l, dist[n]);
      CostAtLeastAlpha(edges, ds[..n], l, dist[..n], ratio);
      assert DemandsOf(ds)[..n] == DemandsOf(ds[..n]);
      WeighAtLeast(edges, d.source, d.sink, d.pathFlow, l, dist[n]);
      TimesMonotone(Times(ratio, d.demand), d.flow, dist[n]);
      TimesAssociates(ratio, d.demand, dist[n]);
      TimesDistributes(ratio, Alpha(ds[..n], dist[..n]), Times(d.demand, dist[n]));
    }
  }

  /**
   If every edge load is at most kappa times its capacity, no flow can serve all demands at a
   ratio above kappa * D / Alpha, whatever non-negative lengths are used.
   */
  lemma WeakDuality(n: Network, ds: seq<MfDemand>, l: EdgeMap, dist: seq<real>, ratio: real, kappa: real)
    requires n.Valid() && AllConserve(n.edges, ds) && Distances(n.edges, ds, l, dist)
    requires forall x :: x in n.edges ==> At(l, x) >= 0.0 && Load(ds, x) <= Times(kappa, n.capacity[x])
    requires forall i :: 0 <= i < |ds| ==> ds[i].flow >= Times(ratio, ds[i].demand)
    ensures Times(ratio, Alpha(ds, dist)) <= Times(kappa, Dot(n.edges, l, n.capacity))
  {
    hide Times;
    CostAtLeastAlpha(n.edges, ds, l, dist, ratio);
    Interchange(n.edges, ds, l);
    var scaled := map x | x in n.edges :: Times(kappa, n.capacity[x]);
    DotMonotone(n.edges, l, LoadMap(n.edges, ds), scaled);
    var zero: EdgeMap := map[];
    DotAddScaled(n.edges, l, zero, kappa, n.capacity, scaled);
    DotUnitNone(n.edges, l, zero);
  }
}
