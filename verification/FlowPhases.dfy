/**
 Phases of the max-concurrent-flow solver on plain values.  A phase routes every demand once along
 shortest paths; this module bounds how much D can grow and must grow in a phase, and derives what
 that says about the number of phases and about any competing flow.
 */
module FlowPhases {
  import opened RealArithmetic
  import opened GrowthFactor
  import opened FlowNetwork
  import opened FlowSteps

  /** The shortest-path routine: edge lengths and a source to a predecessor tree with distances. */
  type ShortestPaths = (EdgeMap, Vertex) -> Tree

  /** From every demand's source the routine reaches the sink by a shortest route. */
  ghost predicate Reaches(n: Network, ds: seq<MfDemand>, sp: ShortestPaths) {
    forall l: EdgeMap, i :: Lengths(n, l) && 0 <= i < |ds| ==> HasShortest(n, l, ds[i].source, ds[i].sink, sp(l, ds[i].source))
  }

  ghost predicate HasShortest(n: Network, l: EdgeMap, s: Vertex, t: Vertex, tree: Tree) {
    exists p :: ShortestRoute(n.edges, l, s, t, tree, p)
  }

  ghost predicate SameDemands(ds: seq<MfDemand>, ds': seq<MfDemand>) {
    && |ds| == |ds'|
    && forall i :: 0 <= i < |ds| ==>
         ds[i].source == ds'[i].source && ds[i].sink == ds'[i].sink && ds[i].demand == ds'[i].demand
  }

  function Dist(sp: ShortestPaths, l: EdgeMap, d: MfDemand): real {
    var tree := sp(l, d.source);
    if d.sink in tree.dist then tree.dist[d.sink] else 0.0
  }

  ghost function DistSeq(sp: ShortestPaths, l: EdgeMap, ds: seq<MfDemand>): (r: seq<real>)
    ensures |r| == |ds| && forall i :: 0 <= i < |ds| ==> r[i] == Dist(sp, l, ds[i])
  {
    seq(|ds|, i requires 0 <= i < |ds| => Dist(sp, l, ds[i]))
  }

  /** Served to the full, the demands would cost at most D / beta whatever the lengths. */
  ghost predicate DualBound(n: Network, ds: seq<MfDemand>, sp: ShortestPaths, beta: real)
    requires n.Valid()
  {
    forall l: EdgeMap :: Lengths(n, l) ==>
      Times(beta, Alpha(ds, DistSeq(sp, l, ds))) <= Dot(n.edges, l, n.capacity)
  }

  // ---------- distances ----------

  lemma DistProperties(n: Network, ds: seq<MfDemand>, sp: ShortestPaths, l: EdgeMap, i: nat)
    requires n.Valid() && Reaches(n, ds, sp) && Lengths(n, l) && i < |ds|
    ensures RouteBound(n.edges, ds[i].source, ds[i].sink, l, Dist(sp, l, ds[i]))
    ensures Dist(sp, l, ds[i]) > 0.0
  {
    hide IsRoute, PathLen;
    assert HasShortest(n, l, ds[i].source, ds[i].sink, sp(l, ds[i].source));
    var p :| ShortestRoute(n.edges, l, ds[i].source, ds[i].sink, sp(l, ds[i].source), p);
    RouteLengthPositive(n.edges, l, ds[i].source, ds[i].sink, p);
  }

  lemma RouteLengthPositive(edges: seq<Edge>, l: EdgeMap, s: Vertex, t: Vertex, p: Path)
    requires IsRoute(edges, s, t, p) && Positive(edges, l)
    ensures PathLen(l, p) > 0.0
  {
    PathLenAtLeast(edges, l, p, 0.0);
  }

  lemma DistMonotone(n: Network, ds: seq<MfDemand>, sp: ShortestPaths, l: EdgeMap, l': EdgeMap)
    requires n.Valid() && Reaches(n, ds, sp) && Lengths(n, l) && Lengths(n, l')
    requires forall x :: x in n.edges ==> l[x] <= l'[x]
    ensures forall i :: 0 <= i < |ds| ==> 0.0 < DistSeq(sp, l, ds)[i] <= DistSeq(sp, l', ds)[i]
  {
    hide PathLen;
    forall i | 0 <= i < |ds| ensures 0.0 < Dist(sp, l, ds[i]) <= Dist(sp, l', ds[i]) {
      DistProperties(n, ds, sp, l, i);
      assert HasShortest(n, l', ds[i].source, ds[i].sink, sp(l', ds[i].source));
      var p :| ShortestRoute(n.edges, l', ds[i].source, ds[i].sink, sp(l', ds[i].source), p);
      PathLenMonotone(l, l', p);
    }
  }

  lemma SameDemandsSameAlpha(ds: seq<MfDemand>, ds': seq<MfDemand>, sp: ShortestPaths, l: EdgeMap)
    requires SameDemands(ds, ds')
    ensures DistSeq(sp, l, ds) == DistSeq(sp, l, ds')
    ensures DemandsOf(ds) == DemandsOf(ds')
  {
  }

  // ---------- inside a phase ----------

  /**
   routed[i] is what demand i has pushed in the current phase, d0 the value of D and start the
   demands when it began, and low a bound no edge length has ever been below.
   */
  ghost predicate PhaseInv(n: Network, sp: ShortestPaths, start: seq<MfDemand>, ds: seq<MfDemand>, w: EdgeMap,
                           e: real, low: real, d0: real, d: real, routed: seq<real>) {
    && SameDemands(start, ds)
    && |routed| == |ds|
    && (forall i :: 0 <= i < |ds| ==> ds[i].flow == start[i].flow + routed[i])
    && (forall i :: 0 <= i < |ds| ==> 0.0 <= routed[i] <= ds[i].demand)
    && d0 + Times(e, SeqDot(routed, Constant(|ds|, low))) <= d
    && d <= d0 + Times(e, SeqDot(routed, DistSeq(sp, w, ds)))
  }

  ghost function Constant(k: nat, x: real): (r: seq<real>)
    ensures |r| == k && forall i :: 0 <= i < k ==> r[i] == x
  {
    seq(k, _ => x)
  }

  lemma {:induction false} PhaseStarts(n: Network, sp: ShortestPaths, ds: seq<MfDemand>, w: EdgeMap, e: real, low: real, d: real)
    requires forall i :: 0 <= i < |ds| ==> ds[i].demand > 0.0
    ensures PhaseInv(n, sp, ds, ds, w, e, low, d, d, Constant(|ds|, 0.0))
  {
    hide Times;
    SeqDotZero(|ds|, Constant(|ds|, low));
    SeqDotZero(|ds|, DistSeq(sp, w, ds));
    TimesUnits(e);
  }

  lemma {:induction false} SeqDotZero(k: nat, b: seq<real>)
    requires |b| == k
    ensures SeqDot(Constant(k, 0.0), b) == 0.0
  {
    hide Times;
    if k > 0 {
      assert Constant(k, 0.0)[..k - 1] == Constant(k - 1, 0.0);
      SeqDotZero(k - 1, b[..k - 1]);
      TimesUnits(b[k - 1]);
    }
  }

  /** Pushing along a shortest route at the current lengths keeps both bounds on D. */
  lemma PhaseStep(n: Network, sp: ShortestPaths, start: seq<MfDemand>, ds: seq<MfDemand>, w: EdgeMap, w': EdgeMap,
                  e: real, low: real, d0: real, d: real, routed: seq<real>, i: nat, p: Path, u: real)
    requires n.Valid() && e > 0.0 && low >= 0.0 && Reaches(n, ds, sp)
    requires PhaseInv(n, sp, start, ds, w, e, low, d0, d, routed)
    requires Lengths(n, w) && Lengths(n, w') && forall x :: x in n.edges ==> low <= w[x] <= w'[x]
    requires i < |ds| && 0.0 < u <= ds[i].demand - routed[i]
    requires ShortestRoute(n.edges, w, ds[i].source, ds[i].sink, sp(w, ds[i].source), p)
    ensures PhaseInv(n, sp, start, ds[i := Routed(ds[i], p, u)], w', e, low, d0,
                     d + Times(Times(e, u), PathLen(w, p)), routed[i := routed[i] + u])
  {
    hide Times, PathLen, SeqDot;
    var ds' := ds[i := Routed(ds[i], p, u)];
    var routed' := routed[i := routed[i] + u];
    var dist, dist', lows := DistSeq(sp, w, ds), DistSeq(sp, w', ds), Constant(|ds|, low);
    assert DistSeq(sp, w', ds') == dist';
    DistMonotone(n, ds, sp, w, w');
    TimesAssociates(e, u, PathLen(w, p));
    assert PathLen(w, p) == dist[i];
    // from below
    SeqDotUpdate(routed, lows, i, u);
    PathAtLeastLow(n.edges, w, ds[i].source, ds[i].sink, p, low);
    TimesMonotone(low, dist[i], u);
    RaiseBound(e, SeqDot(routed, lows), Times(u, low), Times(u, dist[i]));
    // from above
    SeqDotUpdate(routed, dist', i, u);
    SeqDotMonotone(routed, dist, dist');
    TimesMonotone(dist[i], dist'[i], u);
    RaiseBound(e, SeqDot(routed, dist), Times(u, dist[i]), SeqDot(routed', dist') - SeqDot(routed, dist));
  }

  lemma RaiseBound(e: real, a: real, x: real, y: real)
    requires e > 0.0 && x <= y
    ensures Times(e, a + x) <= Times(e, a) + Times(e, y)
    ensures Times(e, a) + Times(e, x) <= Times(e, a + y)
  {
    hide Times;
    TimesMonotone(x, y, e);
    TimesDistributes(e, a, x);
    TimesDistributes(e, a, y);
  }

  lemma PathAtLeastLow(edges: seq<Edge>, l: EdgeMap, s: Vertex, t: Vertex, p: Path, low: real)
    requires IsRoute(edges, s, t, p) && Positive(edges, l)
    requires low >= 0.0 && forall x :: x in edges ==> l[x] >= low
    ensures PathLen(l, p) >= low
  {
    PathLenAtLeast(edges, l, p, low);
  }

  // ---------- over phases ----------

  /** After k phases D * (1 - e / beta)^k is still at most the initial D, for every valid beta. */
  ghost predicate GrowthBound(n: Network, ds: seq<MfDemand>, sp: ShortestPaths, e: real, initial: real, k: nat, d: real)
    requires n.Valid()
  {
    forall beta: real :: beta > e && DualBound(n, ds, sp, beta) ==> GrowthAt(e, beta, initial, k, d)
  }

  ghost predicate GrowthAt(e: real, beta: real, initial: real, k: nat, d: real) {
    beta > 0.0 && Times(d, Pow(1.0 - e / beta, k)) <= initial
  }

  lemma ScalarPhase(e: real, beta: real, a: real, d0: real, d: real)
    requires 0.0 < e < beta && d <= d0 + Times(e, a) && Times(beta, a) <= d
    ensures 0.0 < 1.0 - e / beta
    ensures Times(d, 1.0 - e / beta) <= d0
  {
    var q := e / beta;
    Quotient(e, beta);
    assert e * a == q * (beta * a);
    assert q * (beta * a) <= q * d by {
      TimesMonotone(beta * a, d, q);
    }
    assert d * (1.0 - q) == d - q * d;
  }

  /** One complete phase multiplies D by at most 1 / (1 - e / beta). */
  lemma PhaseGrowth(n: Network, sp: ShortestPaths, start: seq<MfDemand>, ds: seq<MfDemand>, w: EdgeMap,
                    e: real, low: real, d0: real, d: real, routed: seq<real>, initial: real, k: nat)
    requires n.Valid() && Lengths(n, w) && e > 0.0 && Reaches(n, ds, sp)
    requires PhaseInv(n, sp, start, ds, w, e, low, d0, d, routed)
    requires d == Dot(n.edges, w, n.capacity)
    requires GrowthBound(n, start, sp, e, initial, k, d0)
    ensures GrowthBound(n, ds, sp, e, initial, k + 1, d)
  {
    hide Times, SeqDot, Dot, Pow, DualBound;
    forall beta: real | beta > e && DualBound(n, ds, sp, beta) ensures GrowthAt(e, beta, initial, k + 1, d) {
      PhaseGrowthAt(n, sp, start, ds, w, e, low, d0, d, routed, beta);
      SameDualBound(n, start, ds, sp, beta);
      assert GrowthAt(e, beta, initial, k, d0);
      GrowOnce(d0, d, 1.0 - e / beta, initial, k);
    }
  }

  lemma SameDualBound(n: Network, ds: seq<MfDemand>, ds': seq<MfDemand>, sp: ShortestPaths, beta: real)
    requires n.Valid() && SameDemands(ds, ds')
    ensures DualBound(n, ds, sp, beta) <==> DualBound(n, ds', sp, beta)
  {
    hide Times, Dot, SeqDot, Lengths;
    forall l: EdgeMap ensures Alpha(ds, DistSeq(sp, l, ds)) == Alpha(ds', DistSeq(sp, l, ds')) {
      SameDemandsSameAlpha(ds, ds', sp, l);
    }
  }

  lemma PhaseGrowthAt(n: Network, sp: ShortestPaths, start: seq<MfDemand>, ds: seq<MfDemand>, w: EdgeMap,
                      e: real, low: real, d0: real, d: real, routed: seq<real>, beta: real)
    requires n.Valid() && Lengths(n, w) && 0.0 < e < beta && Reaches(n, ds, sp)
    requires PhaseInv(n, sp, start, ds, w, e, low, d0, d, routed)
    requires d == Dot(n.edges, w, n.capacity) && DualBound(n, ds, sp, beta)
    ensures 0.0 < 1.0 - e / beta && Times(d, 1.0 - e / beta) <= d0
  {
    hide Times, SeqDot, Dot;
    var dist := DistSeq(sp, w, ds);
    DistMonotone(n, ds, sp, w, w);
    SeqDotMonotone(dist, routed, DemandsOf(ds));
    TimesMonotone(SeqDot(routed, dist), Alpha(ds, dist), e);
    ScalarPhase(e, beta, Alpha(ds, dist), d0, d);
  }

  lemma GrowOnce(d0: real, d: real, r: real, initial: real, k: nat)
    requires r > 0.0 && Times(d, r) <= d0 && Times(d0, Pow(r, k)) <= initial
    ensures Times(d, Pow(r, k + 1)) <= initial
  {
    hide Times;
    PowPositive(r, k);
    TimesMonotone(Times(d, r), d0, Pow(r, k));
    TimesAssociates(d, r, Pow(r, k));
  }

  // ---------- termination ----------

  /** How many decreases by at least step a value x can take before it is no longer positive. */
  function Fuel(x: real, step: real): nat
    requires step > 0.0
  {
    if x <= 0.0 then 0 else DivideFloor(x, step) + 1
  }

  function DivideFloor(x: real, step: real): nat
    requires step > 0.0 && x >= 0.0
  {
    assert x / step >= 0.0;
    (x / step).Floor
  }

  lemma QuotientOrder(x: real, x': real, k: real, step: real)
    requires step > 0.0 && x' <= x - k * step
    ensures x' / step <= x / step - k
  {
    var q, q' := x / step, x' / step;
    assert x' == q' * step && x == q * step;
    assert (q' - (q - k)) * step == q' * step - q * step + k * step;
    if q' > q - k {
      TimesSign(q' - (q - k), step);
    }
  }

  lemma FuelDecreases(x: real, x': real, step: real)
    requires step > 0.0 && x > 0.0
    requires x' <= 0.0 || x' <= x - step
    ensures Fuel(x', step) < Fuel(x, step)
  {
    if x' > 0.0 {
      QuotientOrder(x, x', 1.0, step);
    }
  }

  /** What D gains at least in a phase that serves every demand in full. */
  ghost function PhaseGain(ds: seq<MfDemand>, e: real, low: real): real {
    Times(e, SeqDot(DemandsOf(ds), Constant(|ds|, low)))
  }

  lemma PhaseGainPositive(ds: seq<MfDemand>, e: real, low: real)
    requires ds != [] && e > 0.0 && low > 0.0 && forall i :: 0 <= i < |ds| ==> ds[i].demand > 0.0
    ensures PhaseGain(ds, e, low) > 0.0
  {
    hide Times, SeqDot;
    assert DemandsOf(ds)[0] > 0.0 && Constant(|ds|, low)[0] > 0.0;
    SeqDotPositive(DemandsOf(ds), Constant(|ds|, low));
    TimesSign(e, SeqDot(DemandsOf(ds), Constant(|ds|, low)));
  }

  // ---------- competing flows ----------

  /** A reference flow for the same demands that respects all capacities and serves the ratio. */
  ghost predicate Feasible(n: Network, ds: seq<MfDemand>, ref: seq<MfDemand>, ratio: real)
    requires n.Valid()
  {
    && SameDemands(ds, ref)
    && AllConserve(n.edges, ref)
    && (forall x :: x in n.edges ==> Load(ref, x) <= n.capacity[x])
    && (forall i :: 0 <= i < |ref| ==> ref[i].flow >= Times(ratio, ref[i].demand))
  }

  /** The ratio of any feasible flow is a valid beta. */
  lemma FeasibleGivesDualBound(n: Network, ds: seq<MfDemand>, ref: seq<MfDemand>, ratio: real, sp: ShortestPaths)
    requires n.Valid() && Reaches(n, ds, sp) && Feasible(n, ds, ref, ratio)
    ensures DualBound(n, ds, sp, ratio)
  {
    hide Times, Dot, SeqDot, Load, RouteBound, Conserves;
    forall l: EdgeMap | Lengths(n, l)
      ensures Times(ratio, Alpha(ds, DistSeq(sp, l, ds))) <= Dot(n.edges, l, n.capacity)
    {
      var dist := DistSeq(sp, l, ref);
      SameDemandsSameAlpha(ds, ref, sp, l);
      forall i | 0 <= i < |ref| ensures 0.0 <= dist[i] && LowerBound(n.edges, ref[i], l, dist[i]) {
        DistProperties(n, ds, sp, l, i);
      }
      forall x | x in n.edges ensures At(l, x) >= 0.0 && Load(ref, x) <= Times(1.0, n.capacity[x]) {
        TimesUnits(n.capacity[x]);
      }
      WeakDuality(n, ref, l, dist, ratio, 1.0);
      TimesUnits(Dot(n.edges, l, n.capacity));
    }
  }
}
