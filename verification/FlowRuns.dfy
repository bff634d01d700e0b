/**
 Whole runs of the max-concurrent-flow solver on plain values: the state between two phases,
 its start, how a finished phase extends it, and what a finished run guarantees.
 */
module FlowRuns {
  import opened RealArithmetic
  import opened GrowthFactor
  import opened FlowNetwork
  import opened FlowSteps
  import opened FlowPhases

  ghost predicate AtLeast(n: Network, w: EdgeMap, low: real) {
    forall x :: x in n.edges ==> x in w && low <= w[x]
  }

  /** Everything that holds between two pushes of one phase. */
  ghost predicate Running(n: Network, sp: ShortestPaths, start: seq<MfDemand>, ds: seq<MfDemand>, w: EdgeMap,
                          e: real, delta: real, low: real, d0: real, d: real, routed: seq<real>) {
    && SolverInv(n, ds, w, e, delta, d)
    && PhaseInv(n, sp, start, ds, w, e, low, d0, d, routed)
    && AtLeast(n, w, low)
    && Reaches(n, ds, sp)
    && UnitsRouted(n, ds, routed)
  }

  /** On a uniform network only whole units have been routed in this phase. */
  ghost predicate UnitsRouted(n: Network, ds: seq<MfDemand>, routed: seq<real>)
    requires n.Valid()
  {
    forall unit :: Uniform(n, ds, unit) ==> forall i :: 0 <= i < |routed| ==> Multiple(routed[i], unit)
  }

  lemma NothingRouted(n: Network, ds: seq<MfDemand>)
    requires n.Valid()
    ensures UnitsRouted(n, ds, Constant(|ds|, 0.0))
  {
    forall unit | Uniform(n, ds, unit) ensures Multiple(0.0, unit) {
      TimesUnits(unit);
      assert 0.0 == Units(0, unit);
    }
  }

  /** What is pushed, the rest of the demand or a capacity, is then one unit. */
  lemma UnitPushed(n: Network, ds: seq<MfDemand>, routed: seq<real>, i: nat, u: real, unit: real)
    requires n.Valid() && Uniform(n, ds, unit) && i < |ds| == |routed| && Multiple(routed[i], unit)
    requires 0.0 < u <= ds[i].demand - routed[i] && u <= unit
    requires u == ds[i].demand - routed[i] || u == unit
    ensures u == unit && Multiple(routed[i] + u, unit)
  {
    assert Multiple(ds[i].demand, unit);
    var a: nat :| ds[i].demand == Units(a, unit);
    var b: nat :| routed[i] == Units(b, unit);
    assert ds[i].demand - routed[i] == (a - b) as real * unit;
    if a <= b {
      TimesMonotone(a as real, b as real, unit);
      assert false;
    }
    TimesMonotone(1.0, (a - b) as real, unit);
    TimesUnits(unit);
    assert routed[i] + unit == Units(b + 1, unit) by {
      assert (b + 1) as real * unit == b as real * unit + unit;
    }
  }

  lemma RunningStarts(n: Network, sp: ShortestPaths, ds: seq<MfDemand>, w: EdgeMap, e: real, delta: real, low: real, d: real)
    requires SolverInv(n, ds, w, e, delta, d) && AtLeast(n, w, low) && Reaches(n, ds, sp)
    requires forall i :: 0 <= i < |ds| ==> ds[i].demand > 0.0
    ensures Running(n, sp, ds, ds, w, e, delta, low, d, d, Constant(|ds|, 0.0))
  {
    hide PhaseInv, UnitsRouted;
    PhaseStarts(n, sp, ds, w, e, low, d);
    NothingRouted(n, ds);
  }

  lemma UniformCapacity(n: Network, ds: seq<MfDemand>, unit: real)
    requires n.Valid() && Uniform(n, ds, unit)
    ensures forall x :: x in n.edges ==> n.capacity[x] == unit
  {
  }

  lemma UnitsStep(n: Network, ds: seq<MfDemand>, routed: seq<real>, i: nat, p: Path, u: real)
    requires n.Valid() && UnitsRouted(n, ds, routed) && i < |ds| == |routed|
    requires 0.0 < u <= ds[i].demand - routed[i]
    requires forall x :: x in n.edges && OnPath(x, p) ==> u <= n.capacity[x]
    requires exists x :: x in n.edges && OnPath(x, p)
    requires u == ds[i].demand - routed[i] || exists x :: x in n.edges && OnPath(x, p) && u == n.capacity[x]
    ensures forall unit :: Uniform(n, ds, unit) ==> u == unit
    ensures UnitsRouted(n, ds[i := Routed(ds[i], p, u)], routed[i := routed[i] + u])
  {
    hide Routed, Multiple, OnPath, Uniform;
    forall unit | Uniform(n, ds, unit) ensures u == unit && Multiple(routed[i] + u, unit) {
      assert Multiple(routed[i], unit);
      UniformCapacity(n, ds, unit);
      UnitPushed(n, ds, routed, i, u, unit);
    }
    var ds', routed' := ds[i := Routed(ds[i], p, u)], routed[i := routed[i] + u];
    forall unit, j | Uniform(n, ds', unit) && 0 <= j < |routed'| ensures Multiple(routed'[j], unit) {
      RoutedUniform(n, ds, i, p, u, unit);
      assert Multiple(routed[j], unit);
    }
  }

  lemma RouteHasEdge(edges: seq<Edge>, s: Vertex, t: Vertex, p: Path)
    requires IsRoute(edges, s, t, p)
    ensures exists x :: x in edges && OnPath(x, p)
  {
    assert Edge(p[0], p[0 + 1]) in edges;
    assert OnPath(Edge(p[0], p[0 + 1]), p);
  }

  lemma RunningStep(n: Network, sp: ShortestPaths, start: seq<MfDemand>, ds: seq<MfDemand>, w: EdgeMap,
                    e: real, delta: real, low: real, d0: real, d: real, routed: seq<real>, i: nat, p: Path, u: real)
    requires Running(n, sp, start, ds, w, e, delta, low, d0, d, routed)
    requires 0.0 < e && delta > 0.0 && low >= 0.0 && d < 1.0
    requires i < |ds| && 0.0 < u <= ds[i].demand - routed[i]
    requires ShortestRoute(n.edges, w, ds[i].source, ds[i].sink, sp(w, ds[i].source), p)
    requires forall x :: x in n.edges && OnPath(x, p) ==> u <= n.capacity[x]
    requires u == ds[i].demand - routed[i] || exists x :: x in n.edges && OnPath(x, p) && u == n.capacity[x]
    ensures Running(n, sp, start, ds[i := Routed(ds[i], p, u)], Pushed(n, w, p, e, u), e, delta, low, d0,
                    d + Times(Times(e, u), PathLen(w, p)), routed[i := routed[i] + u])
  {
    hide Times, PathLen, Pushed, OnPath, IsRoute, SeqDot, AllEdges, AllConserve, Dot, UnitsRouted, Uniform, LongOnOnePath, WholeIfUniform;
    RouteHasEdge(n.edges, ds[i].source, ds[i].sink, p);
    UnitsStep(n, ds, routed, i, p, u);
    PushedLengths(n, ds, w, e, delta, d, i, p, u);
    StepKeepsInv(n, ds, w, e, delta, d, i, p, u);
    PhaseStep(n, sp, start, ds, w, Pushed(n, w, p, e, u), e, low, d0, d, routed, i, p, u);
    SameReaches(n, ds, ds[i := Routed(ds[i], p, u)], sp);
  }

  lemma SameReaches(n: Network, ds: seq<MfDemand>, ds': seq<MfDemand>, sp: ShortestPaths)
    requires Reaches(n, ds, sp)
    requires |ds| == |ds'| && forall i :: 0 <= i < |ds| ==> ds[i].source == ds'[i].source && ds[i].sink == ds'[i].sink
    ensures Reaches(n, ds', sp)
  {
    hide HasShortest, Lengths;
    forall l: EdgeMap, i | Lengths(n, l) && 0 <= i < |ds'|
      ensures HasShortest(n, l, ds'[i].source, ds'[i].sink, sp(l, ds'[i].source))
    {
      assert HasShortest(n, l, ds[i].source, ds[i].sink, sp(l, ds[i].source));
    }
  }

  lemma RunningParts(n: Network, sp: ShortestPaths, start: seq<MfDemand>, ds: seq<MfDemand>, w: EdgeMap,
                     e: real, delta: real, low: real, d0: real, d: real, routed: seq<real>)
    requires Running(n, sp, start, ds, w, e, delta, low, d0, d, routed)
    ensures n.Valid() && Lengths(n, w) && d == Dot(n.edges, w, n.capacity) && Reaches(n, ds, sp)
    ensures |routed| == |ds| == |start|
    ensures forall i :: 0 <= i < |ds| ==> 0.0 <= routed[i] <= ds[i].demand
    ensures SameDemands(start, ds)
    ensures forall i :: 0 <= i < |ds| ==> ds[i].flow == start[i].flow + routed[i]
  {
    hide Times, Dot, SeqDot, AllEdges, AllConserve, Reaches;
  }

  // ---------- between phases ----------

  /** After k phases every demand has been served k times, the last time perhaps in part only. */
  ghost predicate Served(d: MfDemand, k: nat, complete: bool) {
    && Times((k - 1) as real, d.demand) <= d.flow <= Times(k as real, d.demand)
    && (complete ==> d.flow == Times(k as real, d.demand))
  }

  ghost predicate Between(n: Network, sp: ShortestPaths, ds: seq<MfDemand>, w: EdgeMap,
                          e: real, delta: real, low: real, initial: real, k: nat, d: real) {
    && SolverInv(n, ds, w, e, delta, d)
    && AtLeast(n, w, low)
    && Reaches(n, ds, sp)
    && (forall i :: 0 <= i < |ds| ==> ds[i].demand > 0.0)
    && GrowthBound(n, ds, sp, e, initial, k, d)
    && (forall i :: 0 <= i < |ds| ==> Served(ds[i], k, d < 1.0))
    && (d < 1.0 ==> initial + Times(k as real, PhaseGain(ds, e, low)) <= d)
    && (k > 0 ==> initial + Times((k - 1) as real, PhaseGain(ds, e, low)) < 1.0)
  }

  lemma SameGain(ds: seq<MfDemand>, ds': seq<MfDemand>, e: real, low: real)
    requires SameDemands(ds, ds')
    ensures PhaseGain(ds, e, low) == PhaseGain(ds', e, low)
  {
    hide Times, SeqDot;
    assert DemandsOf(ds) == DemandsOf(ds');
  }

  lemma ServedAgain(d: MfDemand, d': MfDemand, k: nat, r: real, complete: bool)
    requires d'.demand == d.demand && Served(d, k, true)
    requires d'.flow == d.flow + r && 0.0 <= r <= d.demand && (complete ==> r == d.demand)
    ensures Served(d', k + 1, complete)
  {
    hide Times;
    TimesDistributes(d.demand, k as real, 1.0);
    TimesUnits(d.demand);
    assert (k + 1) as real == k as real + 1.0;
  }

  /** A phase that began below 1 extends the bookkeeping by one. */
  lemma PhaseCloses(n: Network, sp: ShortestPaths, start: seq<MfDemand>, ds: seq<MfDemand>, w0: EdgeMap, w: EdgeMap,
                    e: real, delta: real, low: real, initial: real, k: nat, d0: real, d: real, routed: seq<real>)
    requires Between(n, sp, start, w0, e, delta, low, initial, k, d0) && d0 < 1.0 && e > 0.0
    requires Running(n, sp, start, ds, w, e, delta, low, d0, d, routed)
    requires d < 1.0 ==> forall i :: 0 <= i < |ds| ==> routed[i] == ds[i].demand
    ensures Between(n, sp, ds, w, e, delta, low, initial, k + 1, d)
    ensures SameDemands(start, ds)
    ensures d < 1.0 ==> d0 + PhaseGain(start, e, low) <= d
  {
    hide Times, Dot, SeqDot, AllEdges, AllConserve, Served, DualBound, HasShortest, PhaseGain, AtLeast;
    PhaseGrowth(n, sp, start, ds, w, e, low, d0, d, routed, initial, k);
    SameGain(start, ds, e, low);
    forall i | 0 <= i < |ds| ensures Served(ds[i], k + 1, d < 1.0) {
      ServedAgain(start[i], ds[i], k, routed[i], d < 1.0);
    }
    if d < 1.0 {
      GainInFull(ds, e, low, d0, d, routed);
      var g := PhaseGain(ds, e, low);
      TimesDistributes(g, k as real, 1.0);
      TimesUnits(g);
      assert (k + 1) as real == k as real + 1.0;
    }
  }

  lemma GainInFull(ds: seq<MfDemand>, e: real, low: real, d0: real, d: real, routed: seq<real>)
    requires |routed| == |ds| && forall i :: 0 <= i < |ds| ==> routed[i] == ds[i].demand
    requires d0 + Times(e, SeqDot(routed, Constant(|ds|, low))) <= d
    ensures d0 + PhaseGain(ds, e, low) <= d
  {
    hide Times, SeqDot;
    assert routed == DemandsOf(ds);
  }

  // ---------- the start ----------

  ghost function InitialLengths(n: Network, delta: real): EdgeMap
    requires n.Valid()
  {
    map x | x in n.edges :: delta / n.capacity[x]
  }

  ghost predicate Idle(ds: seq<MfDemand>) {
    forall i :: 0 <= i < |ds| ==> ds[i].flow == 0.0 && ds[i].pathFlow == map[]
  }

  lemma {:induction false} IdleLoad(ds: seq<MfDemand>, x: Edge)
    requires Idle(ds)
    ensures Load(ds, x) == 0.0
  {
    if ds != [] {
      IdleLoad(ds[..|ds| - 1], x);
    }
  }

  lemma {:induction false} InitialD(edges: seq<Edge>, w: EdgeMap, c: EdgeMap, delta: real)
    requires forall x :: x in edges ==> Times(At(w, x), At(c, x)) == delta
    ensures Dot(edges, w, c) == Times(|edges| as real, delta)
  {
    hide Times;
    if edges == [] {
      TimesUnits(delta);
    } else {
      InitialD(edges[..|edges| - 1], w, c, delta);
      assert edges[|edges| - 1] in edges;
      TimesDistributes(delta, (|edges| - 1) as real, 1.0);
      TimesUnits(delta);
    }
  }

  lemma InitialEdge(e: real, delta: real, c: real)
    requires 0.0 < e && 0.0 < delta < 1.0 && c > 0.0
    ensures delta / c > 0.0 && Times(delta / c, c) == delta
    ensures EdgeInv(e, delta, c, delta / c, 0.0) && Whole(e, delta, c, delta / c, 0.0)
  {
    Quotient(delta, c);
    assert (0.0 / c) == 0.0;
    InterpAtNat(e, 0);
    assert 0.0 == Units(0, c) && Times(delta / c, c) == Times(delta, Pow(1.0 + e, 0));
  }

  lemma InitialInv(n: Network, sp: ShortestPaths, ds: seq<MfDemand>, e: real, delta: real, low: real)
    requires n.Valid() && Idle(ds) && 0.0 < e && 0.0 < delta < 1.0 && Reaches(n, ds, sp)
    requires forall i :: 0 <= i < |ds| ==> ds[i].demand > 0.0
    requires forall x :: x in n.edges ==> low <= delta / n.capacity[x]
    ensures Between(n, sp, ds, InitialLengths(n, delta), e, delta, low, Times(|n.edges| as real, delta), 0,
                    Times(|n.edges| as real, delta))
  {
    hide Times, Dot, SeqDot, EdgeInv, HasShortest, DualBound, PhaseGain, Whole, Uniform;
    var w := InitialLengths(n, delta);
    var d := Times(|n.edges| as real, delta);
    forall x | x in n.edges
      ensures w[x] > 0.0 && Times(w[x], n.capacity[x]) == delta
      ensures EdgeInv(e, delta, n.capacity[x], w[x], Load(ds, x)) && Whole(e, delta, n.capacity[x], w[x], Load(ds, x))
    {
      InitialEdge(e, delta, n.capacity[x]);
      IdleLoad(ds, x);
    }
    InitialD(n.edges, w, n.capacity, delta);
    TimesUnits(PhaseGain(ds, e, low));
    forall beta: real | beta > e && DualBound(n, ds, sp, beta) ensures GrowthAt(e, beta, d, 0, d) {
      TimesUnits(d);
    }
    forall i | 0 <= i < |ds| ensures Served(ds[i], 0, d < 1.0) {
      TimesUnits(ds[i].demand);
      TimesDistributes(ds[i].demand, -1.0, 1.0);
    }
  }

  /** Positive bounds below all capacities and below delta over every capacity. */
  lemma {:induction false} CapacityRange(edges: seq<Edge>, c: EdgeMap, delta: real) returns (cmin: real, low: real)
    requires Positive(edges, c) && delta > 0.0
    ensures cmin > 0.0 && low > 0.0
    ensures forall x :: x in edges ==> cmin <= c[x] && low <= delta / c[x]
  {
    cmin, low := 1.0, 1.0;
    if edges != [] {
      var x := edges[|edges| - 1];
      cmin, low := CapacityRange(edges[..|edges| - 1], c, delta);
      assert x in edges;
      Quotient(delta, c[x]);
      cmin := if c[x] < cmin then c[x] else cmin;
      low := if delta / c[x] < low then delta / c[x] else low;
      forall y | y in edges ensures cmin <= c[y] && low <= delta / c[y] {
        assert y == x || y in edges[..|edges| - 1];
      }
    }
  }

  // ---------- what a finished run guarantees ----------

  /** The state after the last phase: k phases, D at least 1, flows not rescaled yet. */
  ghost predicate Finished(n: Network, sp: ShortestPaths, raw: seq<MfDemand>, w: EdgeMap, e: real, delta: real, low: real, k: nat) {
    && n.Valid() && Lengths(n, w)
    && Between(n, sp, raw, w, e, delta, low, Times(|n.edges| as real, delta), k, Dot(n.edges, w, n.capacity))
    && Dot(n.edges, w, n.capacity) >= 1.0
  }

  /** No edge has carried more than limit + 1 times its capacity, where 1 / delta <= (1 + e)^limit. */
  lemma CapacityBound(n: Network, sp: ShortestPaths, raw: seq<MfDemand>, w: EdgeMap, e: real, delta: real, low: real, k: nat,
                      limit: real, x: Edge)
    requires Finished(n, sp, raw, w, e, delta, low, k) && 0.0 < e && delta > 0.0 && x in n.edges
    requires limit >= 0.0 && Times(delta, Interp(e, limit)) >= 1.0
    ensures Load(raw, x) / n.capacity[x] < limit + 1.0
    ensures Load(raw, x) < Times(limit + 1.0, n.capacity[x])
  {
    hide Times, Interp, Dot, GrowthBound, Served, Reaches, AllConserve, Load;
    var c := n.capacity[x];
    assert EdgeInv(e, delta, c, w[x], Load(raw, x));
    var t := Load(raw, x) / c;
    assert t >= 0.0 && Load(raw, x) == Times(t, c) by { QuotientBack(Load(raw, x), c); }
    if t >= limit + 1.0 {
      InterpMonotone(e, limit + 1.0, t);
      InterpUnit(e, limit);
      TimesMonotone(Interp(e, limit + 1.0), Interp(e, t), delta);
      GrownTooFar(e, delta, Interp(e, limit));
    } else {
      TimesLess(t, limit + 1.0, c);
    }
  }

  lemma GrownTooFar(e: real, delta: real, g: real)
    requires e > 0.0 && Times(delta, g) >= 1.0
    ensures Times(delta, Times(1.0 + e, g)) >= 1.0 + e
  {
    hide Times;
    TimesCommutes(1.0 + e, g);
    TimesAssociates(delta, g, 1.0 + e);
    TimesMonotone(1.0, Times(delta, g), 1.0 + e);
    TimesUnits(1.0 + e);
  }

  /**
   The approximation guarantee.  If some flow within the capacities serves every demand ratio times,
   ratio > e, then the number k of phases is so large that (1 - e / ratio)^k <= m * delta; and the
   flow found serves every demand at least k - 1 times.
   */
  lemma ApproximationGuarantee(n: Network, sp: ShortestPaths, raw: seq<MfDemand>, w: EdgeMap, e: real, delta: real, low: real, k: nat,
                               ref: seq<MfDemand>, ratio: real)
    requires Finished(n, sp, raw, w, e, delta, low, k) && 0.0 < e < ratio
    requires Feasible(n, raw, ref, ratio)
    ensures 0.0 < Pow(1.0 - e / ratio, k) <= Times(|n.edges| as real, delta)
    ensures forall i :: 0 <= i < |raw| ==> raw[i].flow >= Times((k - 1) as real, raw[i].demand)
  {
    hide Times, Dot, Pow, DualBound, Feasible, AllEdges, AllConserve, AtLeast, Lengths, HasShortest;
    var d := Dot(n.edges, w, n.capacity);
    FeasibleGivesDualBound(n, raw, ref, ratio, sp);
    assert GrowthAt(e, ratio, Times(|n.edges| as real, delta), k, d);
    Quotient(e, ratio);
    PowPositive(1.0 - e / ratio, k);
    TimesMonotone(1.0, d, Pow(1.0 - e / ratio, k));
    TimesUnits(Pow(1.0 - e / ratio, k));
  }

  // ---------- rescaling ----------

  ghost function ScaleDemand(d: MfDemand, k: real): MfDemand {
    d.(flow := Times(d.flow, k), pathFlow := map p | p in d.pathFlow :: Times(d.pathFlow[p], k))
  }

  ghost function ScaleAll(ds: seq<MfDemand>, k: real): (r: seq<MfDemand>)
    ensures |r| == |ds| && forall i :: 0 <= i < |ds| ==> r[i] == ScaleDemand(ds[i], k)
  {
    seq(|ds|, i requires 0 <= i < |ds| => ScaleDemand(ds[i], k))
  }

  lemma ScaleConserves(edges: seq<Edge>, d: MfDemand, k: real)
    requires Conserves(edges, d) && k > 0.0
    ensures Conserves(edges, ScaleDemand(d, k))
  {
    hide Times, IsRoute, Weigh;
    var d' := ScaleDemand(d, k);
    WeighScale(d.pathFlow, d'.pathFlow, k, One());
    TimesCommutes(d.flow, k);
    forall p | p in d'.pathFlow ensures IsRoute(edges, d'.source, d'.sink, p) && d'.pathFlow[p] > 0.0 {
      TimesSign(d.pathFlow[p], k);
    }
  }

  /** Rescaling multiplies every edge load and keeps conservation. */
  lemma {:induction false} ScaleLoad(ds: seq<MfDemand>, k: real, x: Edge)
    ensures Load(ScaleAll(ds, k), x) == Times(k, Load(ds, x))
  {
    hide Times, Weigh;
    if ds == [] {
      TimesUnits(k);
    } else {
      var n := |ds| - 1;
      assert ScaleAll(ds, k)[..n] == ScaleAll(ds[..n], k);
      ScaleLoad(ds[..n], k, x);
      WeighScale(ds[n].pathFlow, ScaleDemand(ds[n], k).pathFlow, k, Through(x));
      TimesDistributes(k, Load(ds[..n], x), Weigh(ds[n].pathFlow, Through(x)));
    }
  }

  /** Rescaling by 1 / lambda, lambda the smallest ratio, serves every demand, one of them exactly. */
  lemma RescaleServesAll(ds: seq<MfDemand>, lambda: real)
    requires lambda > 0.0
    requires forall i :: 0 <= i < |ds| ==> ds[i].demand > 0.0 && lambda <= ds[i].flow / ds[i].demand
    ensures forall i :: 0 <= i < |ds| ==> ScaleAll(ds, 1.0 / lambda)[i].flow >= ds[i].demand
    ensures forall i :: 0 <= i < |ds| && lambda == ds[i].flow / ds[i].demand ==>
      ScaleAll(ds, 1.0 / lambda)[i].flow == ds[i].demand
  {
    forall i | 0 <= i < |ds|
      ensures ScaleAll(ds, 1.0 / lambda)[i].flow >= ds[i].demand
      ensures lambda == ds[i].flow / ds[i].demand ==> ScaleAll(ds, 1.0 / lambda)[i].flow == ds[i].demand
    {
      RescaleOne(ds[i].flow, ds[i].demand, lambda);
    }
  }

  lemma RescaleOne(flow: real, demand: real, lambda: real)
    requires lambda > 0.0 && demand > 0.0 && lambda <= flow / demand
    ensures Times(flow, 1.0 / lambda) >= demand
    ensures lambda == flow / demand ==> Times(flow, 1.0 / lambda) == demand
  {
    var q, z := flow / demand, 1.0 / lambda;
    Quotient(1.0, lambda);
    assert flow == q * demand;
    TimesMonotone(lambda, q, demand);
    TimesMonotone(lambda * demand, flow, z);
    assert (lambda * demand) * z == demand * (z * lambda);
  }

  lemma ScaleServed(d: real, flow: real, k: real, s: real)
    requires flow >= Times(k, d) && s > 0.0
    ensures Times(flow, s) >= Times(Times(k, s), d)
  {
    hide Times;
    TimesMonotone(Times(k, d), flow, s);
    TimesAssociates(k, d, s);
    TimesCommutes(d, s);
    TimesAssociates(k, s, d);
  }

  /**
   Both sides of the guarantee at once: scaled by 1 / (limit + 1) the flow found respects every
   capacity and serves every demand (k - 1) / (limit + 1) times, while any flow that respects the
   capacities at a ratio above e forces k up through (1 - e / ratio)^k <= m * delta.
   */
  lemma ScaledFlowIsFeasible(n: Network, sp: ShortestPaths, raw: seq<MfDemand>, w: EdgeMap, e: real, delta: real, low: real, k: nat,
                             limit: real)
    requires Finished(n, sp, raw, w, e, delta, low, k) && 0.0 < e && delta > 0.0
    requires limit >= 0.0 && Times(delta, Interp(e, limit)) >= 1.0
    ensures Feasible(n, raw, ScaleAll(raw, 1.0 / (limit + 1.0)), Times((k - 1) as real, 1.0 / (limit + 1.0)))
  {
    hide Times, Interp, Dot, GrowthBound, Reaches, Conserves, Load, AtLeast, AllEdges;
    var s := 1.0 / (limit + 1.0);
    Quotient(1.0, limit + 1.0);
    var ds := ScaleAll(raw, s);
    forall i | 0 <= i < |raw|
      ensures Conserves(n.edges, ds[i])
      ensures ds[i].flow >= Times(Times((k - 1) as real, s), ds[i].demand)
    {
      ScaleConserves(n.edges, raw[i], s);
      ScaleServed(raw[i].demand, raw[i].flow, (k - 1) as real, s);
    }
    forall x | x in n.edges ensures Load(ds, x) <= n.capacity[x] {
      CapacityBound(n, sp, raw, w, e, delta, low, k, limit, x);
      ScaleLoad(raw, s, x);
      ScaleBack(limit + 1.0, s, Load(raw, x), n.capacity[x]);
    }
  }

  lemma ScaleBack(a: real, s: real, load: real, c: real)
    requires a > 0.0 && s == 1.0 / a && load < Times(a, c)
    ensures Times(s, load) <= c
  {
    Quotient(1.0, a);
    TimesMonotone(load, Times(a, c), s);
    TimesAssociates(s, a, c);
  }
}
