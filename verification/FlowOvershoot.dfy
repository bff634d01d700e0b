/**
 The solver's own rescaling divides the flow by the logarithm of 1 / delta to base 1 + e.  That does
 not always respect the capacities: on the one edge below four full pushes are made, but the logarithm
 is below four.  The edges concerned can be told by their final length, and lie on one path.
 */
module FlowOvershoot {
  import opened RealArithmetic
  import opened GrowthFactor
  import opened FlowNetwork
  import opened FlowSteps
  import opened FlowPhases
  import opened FlowRuns

  const OnlyEdge := Edge(0, 1)
  const OneEdge := Network([OnlyEdge], map[OnlyEdge := 1.0])
  const Way: Path := [0, 1]

  /** One demand of one unit over one edge of capacity one, after k pushes of one unit with e = 1/2 and delta = 1/4. */
  ghost function LengthAfter(k: nat): (w: EdgeMap)
    ensures forall x :: x in w ==> x in OneEdge.edges
  {
    Ready();
    if k == 0 then InitialLengths(OneEdge, 0.25) else Pushed(OneEdge, LengthAfter(k - 1), Way, 0.5, 1.0)
  }

  ghost function DemandAfter(k: nat): MfDemand {
    if k == 0 then MfDemand(0, 1, 1.0, 0.0, map[]) else Routed(DemandAfter(k - 1), Way, 1.0)
  }

  lemma Ready()
    ensures OneEdge.Valid()
  {
  }

  lemma {:induction false} LengthIs(k: nat)
    ensures LengthAfter(k) == map[OnlyEdge := Times(0.25, Pow(1.5, k))]
  {
    Ready();
    assert Way[0] == 0 && Way[1] == 1;
    if k > 0 {
      LengthIs(k - 1);
      assert OnPath(OnlyEdge, Way);
    }
  }

  lemma PowSmall()
    ensures Pow(1.5, 0) == 1.0 && Pow(1.5, 1) == 1.5 && Pow(1.5, 2) == 2.25 && Pow(1.5, 3) == 3.375 && Pow(1.5, 4) == 5.0625
  {
  }

  lemma DualIs(k: nat)
    ensures Dot(OneEdge.edges, LengthAfter(k), OneEdge.capacity) == Times(0.25, Pow(1.5, k))
  {
    LengthIs(k);
    assert OneEdge.edges[..0] == [];
  }

  lemma {:induction false} LoadIs(k: nat)
    ensures Load([DemandAfter(k)], OnlyEdge) == k as real
  {
    assert OnPath(OnlyEdge, Way) by {
      assert Way[0] == 0 && Way[1] == 1;
    }
    assert [DemandAfter(k)][..0] == [];
    if k > 0 {
      LoadIs(k - 1);
      assert [DemandAfter(k - 1)][..0] == [];
      WeighAddFlow(DemandAfter(k - 1).pathFlow, Way, 1.0, Through(OnlyEdge));
    }
  }

  /** D stays below 1 for exactly four pushes; 4 lies below (3/2)^4, so the logarithm of 1 / delta is below
      four, and the flow divided by it exceeds the capacity. */
  lemma ScaledFlowExceedsCapacity(limit: real)
    requires 0.0 < limit < 4.0
    ensures forall k: nat :: k < 4 ==> Dot(OneEdge.edges, LengthAfter(k), OneEdge.capacity) < 1.0
    ensures Dot(OneEdge.edges, LengthAfter(4), OneEdge.capacity) >= 1.0
    ensures Pow(1.5, 3) < 1.0 / 0.25 < Pow(1.5, 4)
    ensures Load(ScaleAll([DemandAfter(4)], 1.0 / limit), OnlyEdge) > OneEdge.capacity[OnlyEdge]
  {
    hide LengthAfter, DemandAfter, Pow, Dot, Load;
    PowSmall();
    forall k: nat | k < 4 ensures Dot(OneEdge.edges, LengthAfter(k), OneEdge.capacity) < 1.0 {
      DualIs(k);
      assert k == 0 || k == 1 || k == 2 || k == 3;
    }
    DualIs(4);
    LoadIs(4);
    ScaleLoad([DemandAfter(4)], 1.0 / limit, OnlyEdge);
    FourOver(limit);
  }

  /** The logarithm of 4 to base 3/2 is such a limit. */
  lemma LogOfFour(limit: real)
    requires IsLog(0.5, 0.25, limit)
    ensures 3.0 <= limit < 4.0
  {
    hide IsLog, Pow;
    PowSmall();
    LogAtNat(0.5, 0.25, limit, 3);
    LogAtNat(0.5, 0.25, limit, 4);
  }

  lemma FourOver(limit: real)
    requires 0.0 < limit < 4.0
    ensures Times(1.0 / limit, 4.0) > 1.0
  {
    assert (1.0 / limit) * limit == 1.0;
    assert 1.0 / limit > 0.0;
  }

  // ---------- when the capacities are exceeded ----------

  /** Rescaled by 1 / limit, the flow does not fit through x. */
  ghost predicate Overshoots(n: Network, raw: seq<MfDemand>, limit: real, x: Edge)
    requires n.Valid() && x in n.edges && limit > 0.0
  {
    Load(ScaleAll(raw, 1.0 / limit), x) > n.capacity[x]
  }

  lemma OvershootLoad(n: Network, raw: seq<MfDemand>, limit: real, x: Edge)
    requires n.Valid() && x in n.edges && limit > 0.0
    ensures Overshoots(n, raw, limit, x) <==> Load(raw, x) > Times(limit, n.capacity[x])
  {
    hide Load;
    ScaleLoad(raw, 1.0 / limit, x);
    MoveAcross(limit, Load(raw, x), n.capacity[x]);
  }

  /** What a finished run says about one edge. */
  lemma FinishedEdge(n: Network, sp: ShortestPaths, raw: seq<MfDemand>, w: EdgeMap, e: real, delta: real, low: real, k: nat, x: Edge)
    requires Finished(n, sp, raw, w, e, delta, low, k) && x in n.edges
    ensures n.Valid() && x in n.capacity && x in w && EdgeInv(e, delta, n.capacity[x], w[x], Load(raw, x))
    ensures forall unit :: Uniform(n, raw, unit) ==> Whole(e, delta, n.capacity[x], w[x], Load(raw, x))
  {
    hide Times, Interp, Dot, GrowthBound, Served, Reaches, AllConserve, Load, EdgeInv, Whole, Uniform;
  }

  /** Whatever was pushed, an edge whose length has not passed 1 / capacity is within its capacity after rescaling. */
  lemma ShortStaysWithin(n: Network, sp: ShortestPaths, raw: seq<MfDemand>, w: EdgeMap, e: real, delta: real, low: real, k: nat,
                         limit: real, x: Edge)
    requires Finished(n, sp, raw, w, e, delta, low, k) && 0.0 < e && 0.0 < delta < 1.0 && x in n.edges
    requires IsLog(e, delta, limit) && limit > 0.0
    ensures Times(w[x], n.capacity[x]) <= 1.0 ==> !Overshoots(n, raw, limit, x)
  {
    hide Times, Interp, IsLog, Load, Finished, Overshoots;
    FinishedEdge(n, sp, raw, w, e, delta, low, k, x);
    var c := n.capacity[x];
    OvershootLoad(n, raw, limit, x);
    LogBounds(e, delta, limit);
    var t := Load(raw, x) / c;
    QuotientBack(Load(raw, x), c);
    if t > limit {
      InterpIncreases(e, limit, t);
      TimesLess(Interp(e, limit), Interp(e, t), delta);
    } else {
      TimesMonotone(t, limit, c);
    }
  }

  /** All edges filled beyond their capacity lie on one path that carries flow. */
  lemma OnlyOnePathOvershoots(n: Network, sp: ShortestPaths, raw: seq<MfDemand>, w: EdgeMap, e: real, delta: real, low: real, k: nat,
                              limit: real)
    requires Finished(n, sp, raw, w, e, delta, low, k) && 0.0 < e && 0.0 < delta < 1.0
    requires IsLog(e, delta, limit) && limit > 0.0
    ensures (forall x :: x in n.edges ==> !Overshoots(n, raw, limit, x))
      || exists i, p :: 0 <= i < |raw| && p in raw[i].pathFlow
           && forall x :: x in n.edges && Overshoots(n, raw, limit, x) ==> OnPath(x, p)
  {
    hide Times, IsLog, Overshoots, OnPath, Dot, GrowthBound, Served, Reaches, AllConserve, AllEdges, WholeIfUniform, AtLeast;
    forall x | x in n.edges && Short(n, w, x) ensures !Overshoots(n, raw, limit, x) {
      ShortStaysWithin(n, sp, raw, w, e, delta, low, k, limit, x);
    }
    assert LongOnOnePath(n, raw, w);
    if !(forall x :: x in n.edges ==> Short(n, w, x)) {
      var i, p :| 0 <= i < |raw| && p in raw[i].pathFlow && ShortOff(n, w, p);
      assert forall x :: x in n.edges && Overshoots(n, raw, limit, x) ==> OnPath(x, p);
    }
  }

  /** If all capacities are equal and all demands multiples of them, the edges filled beyond their capacity are exactly
      those whose length has passed 1 / capacity. */
  lemma UniformOvershoot(n: Network, sp: ShortestPaths, raw: seq<MfDemand>, w: EdgeMap, e: real, delta: real, low: real, k: nat,
                         limit: real, unit: real, x: Edge)
    requires Finished(n, sp, raw, w, e, delta, low, k) && 0.0 < e && 0.0 < delta < 1.0 && x in n.edges
    requires IsLog(e, delta, limit) && limit > 0.0 && Uniform(n, raw, unit)
    ensures Overshoots(n, raw, limit, x) <==> Times(w[x], n.capacity[x]) > 1.0
  {
    hide Times, IsLog, Load, Finished, Overshoots, Pow, Uniform;
    FinishedEdge(n, sp, raw, w, e, delta, low, k, x);
    var c := n.capacity[x];
    ShortStaysWithin(n, sp, raw, w, e, delta, low, k, limit, x);
    OvershootLoad(n, raw, limit, x);
    var m: nat :| Load(raw, x) == Units(m, c) && Times(w[x], c) == Times(delta, Pow(1.0 + e, m));
    LogAtNat(e, delta, limit, m);
    if m as real > limit {
      TimesLess(limit, m as real, c);
    }
  }

  ghost predicate ExactPower(e: real, delta: real, j: nat) {
    Times(delta, Pow(1.0 + e, j)) == 1.0
  }

  /** With a single edge this can be told before the run: it is filled beyond its capacity exactly if 1 / delta is no
      power of 1 + e. */
  lemma SingleEdgeOvershoot(n: Network, sp: ShortestPaths, raw: seq<MfDemand>, w: EdgeMap, e: real, delta: real, low: real, k: nat,
                            limit: real, unit: real, x: Edge)
    requires Finished(n, sp, raw, w, e, delta, low, k) && 0.0 < e && 0.0 < delta < 1.0 && n.edges == [x]
    requires IsLog(e, delta, limit) && limit > 0.0 && Uniform(n, raw, unit)
    ensures Overshoots(n, raw, limit, x) <==> forall j: nat :: !ExactPower(e, delta, j)
  {
    hide Times, IsLog, Load, Overshoots, Pow, Uniform, GrowthBound, Served, Reaches, AllConserve, AllEdges, WholeIfUniform, AtLeast, LongOnOnePath;
    FinishedEdge(n, sp, raw, w, e, delta, low, k, x);
    var c := n.capacity[x];
    UniformOvershoot(n, sp, raw, w, e, delta, low, k, limit, unit, x);
    SingleDot(n, w, x);
    var m: nat :| Load(raw, x) == Units(m, c) && Times(w[x], c) == Times(delta, Pow(1.0 + e, m));
    forall j: nat | ExactPower(e, delta, j) ensures j == m {
      FirstPower(e, delta, j, m);
    }
    assert Overshoots(n, raw, limit, x) <==> !ExactPower(e, delta, m);
  }

  lemma SingleDot(n: Network, w: EdgeMap, x: Edge)
    requires n.Valid() && Lengths(n, w) && n.edges == [x]
    ensures Dot(n.edges, w, n.capacity) == Times(w[x], n.capacity[x])
  {
    hide Times;
    assert x in n.edges && n.edges[..0] == [];
  }

  /** The run stops at the first power that reaches 1 / delta. */
  lemma FirstPower(e: real, delta: real, j: nat, m: nat)
    requires e > 0.0 && delta > 0.0 && Times(delta, Pow(1.0 + e, j)) == 1.0
    requires 1.0 <= Times(delta, Pow(1.0 + e, m)) < 1.0 + e
    ensures j == m
  {
    hide Times;
    if m < j {
      PowMonotone(1.0 + e, m, j - 1);
      TimesMonotone(Pow(1.0 + e, m), Pow(1.0 + e, j - 1), delta);
      NextPower(e, delta, j - 1);
      TimesLess(1.0, 1.0 + e, Times(delta, Pow(1.0 + e, j - 1)));
      TimesUnits(Times(delta, Pow(1.0 + e, j - 1)));
      assert false;
    }
    if j < m {
      PowMonotone(1.0 + e, j + 1, m);
      NextPower(e, delta, j);
      TimesUnits(1.0 + e);
      TimesMonotone(Pow(1.0 + e, j + 1), Pow(1.0 + e, m), delta);
      assert false;
    }
  }

  lemma NextPower(e: real, delta: real, j: nat)
    ensures Times(delta, Pow(1.0 + e, j + 1)) == Times(1.0 + e, Times(delta, Pow(1.0 + e, j)))
  {
    hide Times;
    TimesCommutes(1.0 + e, Pow(1.0 + e, j));
    TimesAssociates(delta, Pow(1.0 + e, j), 1.0 + e);
    TimesCommutes(1.0 + e, Times(delta, Pow(1.0 + e, j)));
  }

  lemma MoveAcross(limit: real, load: real, c: real)
    requires limit > 0.0
    ensures Times(1.0 / limit, load) <= c <==> load <= Times(limit, c)
  {
    hide Times;
    var s := 1.0 / limit;
    Quotient(1.0, limit);
    Inverse(limit);
    if Times(s, load) <= c {
      TimesMonotone(Times(s, load), c, limit);
      TimesAssociates(limit, s, load);
      TimesUnits(load);
    }
    if load <= Times(limit, c) {
      TimesMonotone(load, Times(limit, c), s);
      TimesAssociates(s, limit, c);
      TimesUnits(c);
    }
  }

  lemma Inverse(limit: real)
    requires limit > 0.0
    ensures 1.0 / limit > 0.0 && Times(limit, 1.0 / limit) == 1.0 && Times(1.0 / limit, limit) == 1.0
  {
  }
}
