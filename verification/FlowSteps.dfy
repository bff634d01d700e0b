/**
 One push of the max-concurrent-flow solver on plain values: the new edge lengths, the new flows,
 and what the push keeps.  Lengths live in w, the flows in the demands, and d is the dual value D.
 */
module FlowSteps {
  import opened RealArithmetic
  import opened GrowthFactor
  import opened FlowNetwork

  /** The factor by which pushing u units stretches an edge of capacity c. */
  function Stretch(e: real, u: real, c: real): real
    requires c > 0.0
  {
    1.0 + (e * u) / c
  }

  /** All edges of the path stretched, all others left alone. */
  ghost function Pushed(n: Network, w: EdgeMap, p: Path, e: real, u: real): EdgeMap
    requires n.Valid() && forall x :: x in w ==> x in n.edges
  {
    map x | x in w :: if OnPath(x, p) then Times(w[x], Stretch(e, u, n.capacity[x])) else w[x]
  }

  function Routed(d: MfDemand, p: Path, u: real): MfDemand {
    d.(flow := d.flow + u, pathFlow := AddFlow(d.pathFlow, p, u))
  }

  /**
   What holds of an edge throughout: the flow it has carried is bounded by how far its length has
   grown from delta / capacity, and its length never reaches (1 + e) / capacity.
   */
  ghost predicate EdgeInv(e: real, delta: real, c: real, w: real, load: real)
    requires c > 0.0
  {
    && load >= 0.0
    && Times(delta, Interp(e, load / c)) <= Times(w, c)
    && Times(w, c) < 1.0 + e
  }

  ghost predicate Lengths(n: Network, w: EdgeMap) {
    (forall x :: x in w <==> x in n.edges) && Positive(n.edges, w)
  }

  ghost predicate AllEdges(n: Network, ds: seq<MfDemand>, w: EdgeMap, e: real, delta: real)
    requires n.Valid() && Lengths(n, w)
  {
    forall x :: x in n.edges ==> EdgeInv(e, delta, n.capacity[x], w[x], Load(ds, x))
  }

  ghost predicate Short(n: Network, w: EdgeMap, x: Edge)
    requires n.Valid() && Lengths(n, w) && x in n.edges
  {
    Times(w[x], n.capacity[x]) < 1.0
  }

  ghost predicate ShortOff(n: Network, w: EdgeMap, p: Path)
    requires n.Valid() && Lengths(n, w)
  {
    forall x :: x in n.edges && !OnPath(x, p) ==> Short(n, w, x)
  }

  /** All edges are shorter than 1 / capacity, or all off one path that carries flow. */
  ghost predicate LongOnOnePath(n: Network, ds: seq<MfDemand>, w: EdgeMap)
    requires n.Valid() && Lengths(n, w)
  {
    || (forall x :: x in n.edges ==> Short(n, w, x))
    || exists i, p :: 0 <= i < |ds| && p in ds[i].pathFlow && ShortOff(n, w, p)
  }

  ghost function Units(k: nat, unit: real): real {
    Times(k as real, unit)
  }

  ghost predicate Multiple(a: real, unit: real) {
    exists k: nat :: a == Units(k, unit)
  }

  /** Every capacity is one unit and every demand some whole units. */
  ghost predicate Uniform(n: Network, ds: seq<MfDemand>, unit: real)
    requires n.Valid()
  {
    && unit > 0.0
    && (forall x :: x in n.edges ==> n.capacity[x] == unit)
    && (forall i :: 0 <= i < |ds| ==> Multiple(ds[i].demand, unit))
  }

  /** The edge has been stretched by 1 + e once for every capacity it has carried. */
  ghost predicate Whole(e: real, delta: real, c: real, w: real, load: real) {
    exists k: nat :: load == Units(k, c) && Times(w, c) == Times(delta, Pow(1.0 + e, k))
  }

  ghost predicate AllWhole(n: Network, ds: seq<MfDemand>, w: EdgeMap, e: real, delta: real)
    requires n.Valid() && Lengths(n, w)
  {
    forall x :: x in n.edges ==> Whole(e, delta, n.capacity[x], w[x], Load(ds, x))
  }

  ghost predicate WholeIfUniform(n: Network, ds: seq<MfDemand>, w: EdgeMap, e: real, delta: real)
    requires n.Valid() && Lengths(n, w)
  {
    forall unit :: Uniform(n, ds, unit) ==> AllWhole(n, ds, w, e, delta)
  }

  ghost predicate SolverInv(n: Network, ds: seq<MfDemand>, w: EdgeMap, e: real, delta: real, d: real) {
    && n.Valid()
    && Lengths(n, w)
    && AllConserve(n.edges, ds)
    && AllEdges(n, ds, w, e, delta)
    && LongOnOnePath(n, ds, w)
    && WholeIfUniform(n, ds, w, e, delta)
    && d == Dot(n.edges, w, n.capacity)
  }

  // ---------- scalar facts ----------

  lemma StretchIsLinear(e: real, u: real, c: real)
    requires c > 0.0
    ensures Stretch(e, u, c) == Linear(e, u / c)
  {
    assert (e * u) / c == e * (u / c) by {
      var q := u / c;
      assert u == q * c;
      assert e * u == (e * q) * c;
    }
  }

  lemma DivideSum(a: real, b: real, c: real)
    requires c > 0.0
    ensures (a + b) / c == a / c + b / c
    ensures 0.0 <= a ==> 0.0 <= a / c
    ensures 0.0 < b <= c ==> 0.0 < b / c <= 1.0
  {
  }

  /** One push keeps the edge invariant of an edge it uses. */
  lemma EdgeStep(e: real, delta: real, c: real, w: real, load: real, u: real)
    requires 0.0 < e && delta > 0.0 && c > 0.0 && 0.0 < u <= c && w > 0.0
    requires EdgeInv(e, delta, c, w, load) && Times(w, c) < 1.0
    ensures EdgeInv(e, delta, c, Times(w, Stretch(e, u, c)), load + u)
    ensures Times(w, Stretch(e, u, c)) >= w
  {
    hide Times, Interp, Linear, Stretch;
    var k := Linear(e, u / c);
    var t := load / c;
    StretchIsLinear(e, u, c);
    DivideSum(load, u, c);
    LinearBounds(e, u / c);
    InterpStep(e, t, u / c);
    TimesMonotone(Interp(e, t + u / c), Times(Interp(e, t), k), delta);
    TimesAssociates(delta, Interp(e, t), k);
    TimesMonotone(Times(delta, Interp(e, t)), Times(w, c), k);
    // (w * c) * k == (w * k) * c
    TimesAssociates(w, c, k);
    TimesCommutes(c, k);
    TimesAssociates(w, k, c);
    EdgeStaysShort(e, c, w, k);
    TimesMonotone(1.0, k, w);
    TimesUnits(w);
  }

  lemma EdgeStaysShort(e: real, c: real, w: real, k: real)
    requires w > 0.0 && c > 0.0 && Times(w, c) < 1.0 && 1.0 <= k <= 1.0 + e
    ensures Times(Times(w, c), k) < 1.0 + e
  {
    hide Times;
    var y := Times(w, c);
    TimesSign(w, c);
    TimesMonotone(k, 1.0 + e, y);
    TimesSign(1.0 - y, 1.0 + e);
    TimesDistributes(1.0 + e, 1.0 - y, y);
    TimesCommutes(1.0 + e, y);
    TimesUnits(1.0 + e);
  }

  // ---------- loads and conservation ----------

  lemma {:induction false} LoadUpdate(ds: seq<MfDemand>, i: nat, p: Path, u: real, x: Edge)
    requires i < |ds|
    ensures Load(ds[i := Routed(ds[i], p, u)], x) == Load(ds, x) + if OnPath(x, p) then u else 0.0
  {
    hide Times, OnPath, Weigh;
    var n := |ds| - 1;
    var ds' := ds[i := Routed(ds[i], p, u)];
    if i == n {
      assert ds'[..n] == ds[..n];
      WeighAddFlow(ds[i].pathFlow, p, u, Through(x));
      TimesUnits(u);
    } else {
      assert ds'[..n] == ds[..n][i := Routed(ds[..n][i], p, u)];
      LoadUpdate(ds[..n], i, p, u, x);
    }
  }

  lemma RoutedConserves(edges: seq<Edge>, d: MfDemand, p: Path, u: real)
    requires Conserves(edges, d) && IsRoute(edges, d.source, d.sink, p) && u > 0.0
    ensures Conserves(edges, Routed(d, p, u))
  {
    hide Times, Weigh, IsRoute;
    WeighAddFlow(d.pathFlow, p, u, One());
    TimesUnits(u);
  }

  // ---------- the dual value ----------

  lemma {:induction false} DotSame(edges: seq<Edge>, a: EdgeMap, b: EdgeMap, a': EdgeMap, b': EdgeMap)
    requires forall x :: x in edges ==> Times(At(a, x), At(b, x)) == Times(At(a', x), At(b', x))
    ensures Dot(edges, a, b) == Dot(edges, a', b')
  {
    hide Times;
    if edges != [] {
      DotSame(edges[..|edges| - 1], a, b, a', b');
      assert edges[|edges| - 1] in edges;
    }
  }

  lemma StretchAmount(e: real, u: real, c: real, w: real)
    requires c > 0.0
    ensures Times(w, Stretch(e, u, c)) == w + Times(Times(e, u), w / c)
    ensures Times(c, w / c) == w
  {
    var k := e * u;
    var q := w / c;
    assert w == q * c;
    assert w * (k / c) == k * q by {
      var z := k / c;
      assert k == z * c;
      assert w * z == (q * c) * z;
      assert k * q == (z * c) * q;
    }
    assert w * (1.0 + k / c) == w + w * (k / c);
  }

  /** A push raises D by exactly e times the amount times the length of the path before it. */
  lemma PushRaisesD(n: Network, w: EdgeMap, p: Path, e: real, u: real)
    requires n.Valid() && Lengths(n, w) && Simple(p) && PathIn(n.edges, p)
    ensures Dot(n.edges, Pushed(n, w, p, e, u), n.capacity)
         == Dot(n.edges, w, n.capacity) + Times(Times(e, u), PathLen(w, p))
  {
    hide Times, Dot, PathLen, OnPath, Stretch;
    var w' := Pushed(n, w, p, e, u);
    var k := Times(e, u);
    var d := map x | x in n.edges :: if OnPath(x, p) then w[x] / n.capacity[x] else 0.0;
    forall x | x in n.edges
      ensures At(w', x) == At(w, x) + Times(k, At(d, x))
      ensures Times(At(n.capacity, x), At(d, x)) == Times(At(w, x), At(Chi(n.edges, p), x))
    {
      StretchAmount(e, u, n.capacity[x], w[x]);
      TimesUnits(k);
      TimesUnits(w[x]);
      TimesUnits(n.capacity[x]);
    }
    DotAddScaled(n.edges, n.capacity, w, k, d, w');
    DotSame(n.edges, n.capacity, d, w, Chi(n.edges, p));
    PathLenIsDot(n.edges, w, p);
    DotSymmetric(n.edges, n.capacity, w);
    DotSymmetric(n.edges, n.capacity, w');
  }

  // ---------- the whole step ----------

  /** The length of every edge times its capacity is part of D. */
  lemma EdgeBelowD(n: Network, w: EdgeMap, x: Edge)
    requires n.Valid() && Lengths(n, w) && x in n.edges
    ensures Times(w[x], n.capacity[x]) <= Dot(n.edges, w, n.capacity)
  {
    hide Times, Dot;
    DotNonNegative(n.edges, w, n.capacity);
    assert At(w, x) == w[x] && At(n.capacity, x) == n.capacity[x];
  }

  lemma PushedLengths(n: Network, ds: seq<MfDemand>, w: EdgeMap, e: real, delta: real, d: real, i: nat, p: Path, u: real)
    requires SolverInv(n, ds, w, e, delta, d) && d < 1.0 && e > 0.0 && delta > 0.0
    requires i < |ds| && u > 0.0
    requires forall x :: x in n.edges && OnPath(x, p) ==> u <= n.capacity[x]
    ensures Lengths(n, Pushed(n, w, p, e, u))
    ensures forall x :: x in n.edges ==> w[x] <= Pushed(n, w, p, e, u)[x]
    ensures AllEdges(n, ds[i := Routed(ds[i], p, u)], Pushed(n, w, p, e, u), e, delta)
  {
    hide Times, Dot, OnPath, Stretch, EdgeInv, Load;
    var w' := Pushed(n, w, p, e, u);
    var ds' := ds[i := Routed(ds[i], p, u)];
    forall x | x in n.edges
      ensures w[x] <= w'[x] && EdgeInv(e, delta, n.capacity[x], w'[x], Load(ds', x))
    {
      LoadUpdate(ds, i, p, u, x);
      EdgeBelowD(n, w, x);
      if OnPath(x, p) {
        EdgeStep(e, delta, n.capacity[x], w[x], Load(ds, x), u);
      }
    }
  }

  /** After a push only the path it used can hold an edge of length 1 / capacity or more. */
  lemma PushedLongOnOnePath(n: Network, ds: seq<MfDemand>, w: EdgeMap, e: real, i: nat, p: Path, u: real)
    requires n.Valid() && Lengths(n, w) && Lengths(n, Pushed(n, w, p, e, u)) && i < |ds|
    requires Dot(n.edges, w, n.capacity) < 1.0
    ensures LongOnOnePath(n, ds[i := Routed(ds[i], p, u)], Pushed(n, w, p, e, u))
  {
    hide Times, Dot, OnPath, Stretch;
    var ds', w' := ds[i := Routed(ds[i], p, u)], Pushed(n, w, p, e, u);
    forall x | x in n.edges && !OnPath(x, p) ensures Short(n, w', x) {
      EdgeBelowD(n, w, x);
    }
    assert p in ds'[i].pathFlow && ShortOff(n, w', p);
  }

  lemma WholeStep(e: real, delta: real, c: real, w: real, load: real)
    requires c > 0.0 && Whole(e, delta, c, w, load)
    ensures Whole(e, delta, c, Times(w, Stretch(e, c, c)), load + c)
  {
    hide Times, Stretch, Linear;
    var k: nat :| load == Units(k, c) && Times(w, c) == Times(delta, Pow(1.0 + e, k));
    StretchIsLinear(e, c, c);
    assert c / c == 1.0;
    LinearUnits(e);
    TimesDistributes(c, k as real, 1.0);
    TimesUnits(c);
    assert load + c == Units(k + 1, c);
    TimesCommutes(w, 1.0 + e);
    TimesAssociates(1.0 + e, w, c);
    TimesAssociates(1.0 + e, delta, Pow(1.0 + e, k));
    TimesCommutes(1.0 + e, delta);
    TimesAssociates(delta, 1.0 + e, Pow(1.0 + e, k));
  }

  lemma RoutedUniform(n: Network, ds: seq<MfDemand>, i: nat, p: Path, u: real, unit: real)
    requires n.Valid() && i < |ds|
    ensures Uniform(n, ds[i := Routed(ds[i], p, u)], unit) <==> Uniform(n, ds, unit)
  {
    hide Multiple;
    var ds' := ds[i := Routed(ds[i], p, u)];
    assert forall j :: 0 <= j < |ds| ==> ds'[j].demand == ds[j].demand;
  }

  lemma PushedWhole(n: Network, ds: seq<MfDemand>, w: EdgeMap, e: real, delta: real, i: nat, p: Path, u: real)
    requires n.Valid() && Lengths(n, w) && Lengths(n, Pushed(n, w, p, e, u)) && i < |ds|
    requires WholeIfUniform(n, ds, w, e, delta) && forall unit :: Uniform(n, ds, unit) ==> u == unit
    ensures WholeIfUniform(n, ds[i := Routed(ds[i], p, u)], Pushed(n, w, p, e, u), e, delta)
  {
    hide Times, OnPath, Stretch, Load, Whole, Multiple, Routed;
    var ds', w' := ds[i := Routed(ds[i], p, u)], Pushed(n, w, p, e, u);
    forall unit | Uniform(n, ds', unit) ensures AllWhole(n, ds', w', e, delta) {
      RoutedUniform(n, ds, i, p, u, unit);
      forall x | x in n.edges ensures Whole(e, delta, n.capacity[x], w'[x], Load(ds', x)) {
        LoadUpdate(ds, i, p, u, x);
        if OnPath(x, p) {
          WholeStep(e, delta, n.capacity[x], w[x], Load(ds, x));
        }
      }
    }
  }

  /** A push of at most the bottleneck capacity along a route keeps the solver invariant. */
  lemma StepKeepsInv(n: Network, ds: seq<MfDemand>, w: EdgeMap, e: real, delta: real, d: real, i: nat, p: Path, u: real)
    requires SolverInv(n, ds, w, e, delta, d) && d < 1.0 && e > 0.0 && delta > 0.0
    requires i < |ds| && u > 0.0 && IsRoute(n.edges, ds[i].source, ds[i].sink, p)
    requires forall x :: x in n.edges && OnPath(x, p) ==> u <= n.capacity[x]
    requires forall unit :: Uniform(n, ds, unit) ==> u == unit
    ensures SolverInv(n, ds[i := Routed(ds[i], p, u)], Pushed(n, w, p, e, u), e, delta,
                      d + Times(Times(e, u), PathLen(w, p)))
  {
    hide Times, Dot, OnPath, AllEdges, PathLen, Routed, Conserves, Load, LongOnOnePath, WholeIfUniform, Uniform;
    PushedLengths(n, ds, w, e, delta, d, i, p, u);
    PushRaisesD(n, w, p, e, u);
    RoutedConserves(n.edges, ds[i], p, u);
    PushedLongOnOnePath(n, ds, w, e, i, p, u);
    PushedWhole(n, ds, w, e, delta, i, p, u);
  }
}
