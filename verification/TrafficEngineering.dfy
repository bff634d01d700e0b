/**
 The table of forwarding identifiers that traffic engineering builds from a computed flow, and the
 weighted random choice made from it.  An identifier is the set of its bit positions that are 1.
 */
module TrafficEngineering {
  import opened RealArithmetic
  import opened FlowNetwork

  type Fid = set<nat>

  datatype TeDemand = TeDemand(source: Vertex, sink: Vertex, demand: real, flow: real,
                               paths: seq<Path>, flows: seq<real>, probs: seq<real>, fids: seq<Fid>)

  /** The bits of all links of the path. */
  ghost function PathBits(lids: map<Edge, Fid>, p: Path): Fid {
    if |p| < 2 then {} else PathBits(lids, p[..|p| - 1]) + (if LastEdge(p) in lids then lids[LastEdge(p)] else {})
  }

  lemma {:induction false} PathBitsCover(lids: map<Edge, Fid>, p: Path)
    ensures forall i :: 0 <= i < |p| - 1 && Edge(p[i], p[i + 1]) in lids ==> lids[Edge(p[i], p[i + 1])] <= PathBits(lids, p)
    ensures forall b :: b in PathBits(lids, p) ==>
      exists i :: 0 <= i < |p| - 1 && Edge(p[i], p[i + 1]) in lids && b in lids[Edge(p[i], p[i + 1])]
  {
    if |p| >= 2 {
      var q := p[..|p| - 1];
      PathBitsCover(lids, q);
      forall b | b in PathBits(lids, p)
        ensures exists i :: 0 <= i < |p| - 1 && Edge(p[i], p[i + 1]) in lids && b in lids[Edge(p[i], p[i + 1])]
      {
        if b in PathBits(lids, q) {
          var i :| 0 <= i < |q| - 1 && Edge(q[i], q[i + 1]) in lids && b in lids[Edge(q[i], q[i + 1])];
          assert Edge(p[i], p[i + 1]) in lids && b in lids[Edge(p[i], p[i + 1])];
        } else {
          var i := |p| - 2;
          assert Edge(p[i], p[i + 1]) in lids && b in lids[Edge(p[i], p[i + 1])];
        }
      }
      forall i | 0 <= i < |p| - 1 && Edge(p[i], p[i + 1]) in lids
        ensures lids[Edge(p[i], p[i + 1])] <= PathBits(lids, p)
      {
        if i < |q| - 1 {
          assert Edge(q[i], q[i + 1]) == Edge(p[i], p[i + 1]);
        }
      }
    }
  }

  function Sum(s: seq<real>): real {
    if s == [] then 0.0 else Sum(s[..|s| - 1]) + s[|s| - 1]
  }

  ghost predicate DistinctPaths(s: seq<Path>) {
    forall i, j :: 0 <= i < j < |s| ==> s[i] != s[j]
  }

  /** Columns 0 .. |paths| of the entry describe exactly the listed paths of d. */
  ghost predicate Columns(te: TeDemand, d: MfDemand, lids: map<Edge, Fid>, ilids: map<Vertex, Fid>)
    requires d.sink in ilids
  {
    && |te.paths| == |te.flows| == |te.probs| == |te.fids|
    && DistinctPaths(te.paths)
    && forall j :: 0 <= j < |te.paths| ==>
         && te.paths[j] in d.pathFlow
         && te.flows[j] == d.pathFlow[te.paths[j]]
         && d.flow != 0.0 && te.probs[j] == te.flows[j] / d.flow
         && te.fids[j] == PathBits(lids, te.paths[j]) + ilids[d.sink]
  }

  /** The entry of a demand: one column for each of its paths, and at least one. */
  ghost predicate EntryFor(te: TeDemand, d: MfDemand, lids: map<Edge, Fid>, ilids: map<Vertex, Fid>)
    requires d.sink in ilids
  {
    && te.source == d.source && te.sink == d.sink && te.demand == d.demand && te.flow == d.flow
    && te.paths != []
    && Columns(te, d, lids, ilids)
    && forall p :: p in d.pathFlow ==> p in te.paths
  }

  function Share(x: real, total: real): real
    requires total != 0.0
  {
    x / total
  }

  /** The columns' paths are those of m, each once, and the probabilities their shares. */
  ghost predicate SharesOf(paths: seq<Path>, probs: seq<real>, m: map<Path, real>, total: real)
    requires total != 0.0
  {
    && DistinctPaths(paths) && |probs| == |paths|
    && (forall j :: 0 <= j < |paths| ==> paths[j] in m && probs[j] == Share(m[paths[j]], total))
    && (forall p :: p in m ==> p in paths)
  }

  lemma SharesWithoutLast(paths: seq<Path>, probs: seq<real>, m: map<Path, real>, total: real)
    requires total != 0.0 && SharesOf(paths, probs, m, total) && paths != []
    ensures var n := |paths| - 1; paths[n] in m && SharesOf(paths[..n], probs[..n], m - {paths[n]}, total)
  {
    hide Share;
    var n := |paths| - 1;
    forall p | p in m - {paths[n]} ensures p in paths[..n] {
      assert p in paths;
    }
  }

  lemma LastShare(paths: seq<Path>, probs: seq<real>, m: map<Path, real>, total: real)
    requires total > 0.0 && SharesOf(paths, probs, m, total) && paths != []
    ensures |probs| == |paths| > 0 && paths[|paths| - 1] in m && probs[|paths| - 1] == Share(m[paths[|paths| - 1]], total)
  {
  }

  lemma NoShares(probs: seq<real>, m: map<Path, real>, total: real)
    requires total > 0.0 && SharesOf([], probs, m, total)
    ensures probs == [] && Weigh(m, One()) == 0.0
  {
    assert m.Keys == {};
  }

  lemma {:induction false} ProbsSumOf(paths: seq<Path>, probs: seq<real>, m: map<Path, real>, total: real)
    requires total > 0.0 && SharesOf(paths, probs, m, total)
    ensures Times(total, Sum(probs)) == Weigh(m, One())
    decreases |paths|
  {
    hide Times, Share, SharesOf, Weigh;
    if paths == [] {
      NoShares(probs, m, total);
      TimesUnits(total);
    } else {
      var n := |paths| - 1;
      var q := paths[n];
      LastShare(paths, probs, m, total);
      SharesWithoutLast(paths, probs, m, total);
      ProbsSumOf(paths[..n], probs[..n], m - {q}, total);
      WeighRemove(m, One(), q);
      TimesUnits(m[q]);
      ShareTimesTotal(m[q], total);
      TimesDistributes(total, Sum(probs[..n]), probs[n]);
    }
  }

  lemma ShareTimesTotal(x: real, total: real)
    requires total > 0.0
    ensures Times(total, Share(x, total)) == x
    ensures x > 0.0 ==> Share(x, total) > 0.0
  {
    if x > 0.0 {
      Quotient(x, total);
    }
  }

  lemma WeighPositive(edges: seq<Edge>, d: MfDemand)
    requires Conserves(edges, d) && d.pathFlow != map[]
    ensures d.flow > 0.0
  {
    hide Times, IsRoute;
    var p :| p in d.pathFlow;
    WeighRemove(d.pathFlow, One(), p);
    TimesUnits(d.pathFlow[p]);
    WeighNonNegative(edges, d.source, d.sink, d.pathFlow - {p}, Edge(0, 0));
  }

  /** Whatever the flow, the path probabilities of an entry are positive and sum to 1. */
  lemma ProbabilitiesSumToOne(edges: seq<Edge>, te: TeDemand, d: MfDemand, lids: map<Edge, Fid>, ilids: map<Vertex, Fid>)
    requires d.sink in ilids && EntryFor(te, d, lids, ilids) && Conserves(edges, d)
    ensures Sum(te.probs) == 1.0
    ensures forall j :: 0 <= j < |te.probs| ==> te.probs[j] > 0.0
  {
    hide Times, IsRoute, Weigh, Sum, PathBits;
    assert te.paths[0] in d.pathFlow;
    WeighPositive(edges, d);
    ProbsSumOf(te.paths, te.probs, d.pathFlow, d.flow);
    TimesCancels(d.flow, Sum(te.probs));
    forall j | 0 <= j < |te.probs| ensures te.probs[j] > 0.0 {
      assert te.paths[j] in d.pathFlow;
      ShareTimesTotal(te.flows[j], d.flow);
    }
  }

  /** The draw ran falls in the cumulative interval of column i. */
  ghost predicate InInterval(te: TeDemand, i: nat, ran: real)
    requires i < |te.probs|
  {
    && (i == 0 || Sum(te.probs[..i]) < ran)
    && (i == |te.probs| - 1 || ran <= Sum(te.probs[..i + 1]))
  }

  lemma {:induction false} SumMonotone(s: seq<real>, i: nat, j: nat)
    requires i <= j <= |s| && forall k :: 0 <= k < |s| ==> s[k] > 0.0
    ensures Sum(s[..i]) <= Sum(s[..j])
    decreases j
  {
    if i < j {
      SumMonotone(s, i, j - 1);
      assert s[..j][..j - 1] == s[..j - 1];
    }
  }

  /** The intervals do not overlap: a draw selects at most one column. */
  lemma IntervalsDisjoint(te: TeDemand, i: nat, j: nat, ran: real)
    requires forall k :: 0 <= k < |te.probs| ==> te.probs[k] > 0.0
    requires i < |te.probs| && j < |te.probs| && InInterval(te, i, ran) && InInterval(te, j, ran)
    ensures i == j
  {
    if i < j {
      SumMonotone(te.probs, i + 1, j);
    } else if j < i {
      SumMonotone(te.probs, j + 1, i);
    }
  }

  /** A draw from (0, 1] selects column i exactly if it lies in an interval as wide as the column's probability, behind those
      of the columns before it. */
  lemma IntervalIs(te: TeDemand, i: nat, ran: real)
    requires i < |te.probs| && Sum(te.probs) == 1.0 && 0.0 < ran <= 1.0
    ensures InInterval(te, i, ran) <==> Sum(te.probs[..i]) < ran <= Sum(te.probs[..i]) + te.probs[i]
  {
    assert te.probs[..i + 1][..i] == te.probs[..i];
    if i == |te.probs| - 1 {
      assert te.probs[..i + 1] == te.probs;
    }
    assert Sum(te.probs[..0]) == 0.0;
  }

  /** One more column. */
  function Extend(te: TeDemand, d: MfDemand, path: Path, fid: Fid): (r: TeDemand)
    requires path in d.pathFlow && d.flow != 0.0
  {
    te.(paths := te.paths + [path], flows := te.flows + [d.pathFlow[path]],
        probs := te.probs + [d.pathFlow[path] / d.flow], fids := te.fids + [fid])
  }

  lemma ExtendColumns(te: TeDemand, d: MfDemand, path: Path, fid: Fid, lids: map<Edge, Fid>, ilids: map<Vertex, Fid>)
    requires d.sink in ilids && Columns(te, d, lids, ilids)
    requires path in d.pathFlow && path !in te.paths && d.flow != 0.0
    requires fid == PathBits(lids, path) + ilids[d.sink]
    ensures Columns(Extend(te, d, path, fid), d, lids, ilids)
    ensures forall p :: p in Extend(te, d, path, fid).paths <==> p in te.paths || p == path
  {
    hide PathBits;
  }

  lemma NoColumns(te: TeDemand, d: MfDemand, lids: map<Edge, Fid>, ilids: map<Vertex, Fid>)
    requires d.sink in ilids && te.paths == [] && te.flows == te.probs == [] && te.fids == []
    ensures Columns(te, d, lids, ilids)
  {
  }

  lemma ColumnsListPaths(te: TeDemand, d: MfDemand, lids: map<Edge, Fid>, ilids: map<Vertex, Fid>)
    requires d.sink in ilids && Columns(te, d, lids, ilids)
    ensures d.pathFlow == map[] ==> te.paths == []
  {
    if te.paths != [] {
      assert te.paths[0] in d.pathFlow;
    }
  }

  class DemandMap {
    var demandMap: map<(Vertex, Vertex), TeDemand>

    constructor ()
      ensures demandMap == map[]
    {
      demandMap := map[];
    }

    method InsertDemand(te: TeDemand)
      modifies this
      ensures demandMap == old(demandMap)[(te.source, te.sink) := te]
    {
      demandMap := demandMap[(te.source, te.sink) := te];
    }

    /** The entry of one demand, inserted again after every path. */
    method InsertPaths(d: MfDemand, lids: map<Edge, Fid>, ilids: map<Vertex, Fid>)
      requires d.sink in ilids && (d.pathFlow != map[] ==> d.flow != 0.0)
      requires forall p :: p in d.pathFlow ==> |p| >= 1 && forall i :: 0 <= i < |p| - 1 ==> Edge(p[i], p[i + 1]) in lids
      modifies this
      ensures d.pathFlow == map[] ==> demandMap == old(demandMap)
      ensures d.pathFlow != map[] ==> (d.source, d.sink) in demandMap
      ensures d.pathFlow != map[] ==> EntryFor(demandMap[(d.source, d.sink)], d, lids, ilids)
      ensures d.pathFlow != map[] ==>
        demandMap == old(demandMap)[(d.source, d.sink) := demandMap[(d.source, d.sink)]]
    {
      hide Columns, PathBits;
      var te := TeDemand(d.source, d.sink, d.demand, d.flow, [], [], [], []);
      NoColumns(te, d, lids, ilids);
      var todo := d.pathFlow.Keys;
      while todo != {}
        invariant todo <= d.pathFlow.Keys
        invariant te.source == d.source && te.sink == d.sink && te.demand == d.demand && te.flow == d.flow
        invariant Columns(te, d, lids, ilids)
        invariant forall p :: p in d.pathFlow ==> (p in te.paths <==> p !in todo)
        invariant te.paths == [] ==> todo == d.pathFlow.Keys && demandMap == old(demandMap)
        invariant te.paths != [] ==> demandMap == old(demandMap)[(d.source, d.sink) := te]
        decreases todo
      {
        var path :| path in todo;
        todo := todo - {path};
        var fid := FidOf(path, d.sink, lids, ilids);
        ExtendColumns(te, d, path, fid, lids, ilids);
        te := Extend(te, d, path, fid);
        InsertDemand(te);
      }
      assert te.paths == [] ==> d.pathFlow.Keys == {};
      ColumnsListPaths(te, d, lids, ilids);
    }

    /** All demands; they are keyed by their end points, so no entry overwrites another. */
    method UpdatePaths(ds: seq<MfDemand>, lids: map<Edge, Fid>, ilids: map<Vertex, Fid>)
      requires forall i, j :: 0 <= i < j < |ds| ==> (ds[i].source, ds[i].sink) != (ds[j].source, ds[j].sink)
      requires forall i :: 0 <= i < |ds| ==> ds[i].sink in ilids && (ds[i].pathFlow != map[] ==> ds[i].flow != 0.0)
      requires forall i, p :: 0 <= i < |ds| && p in ds[i].pathFlow ==>
        |p| >= 1 && forall k :: 0 <= k < |p| - 1 ==> Edge(p[k], p[k + 1]) in lids
      requires demandMap == map[]
      modifies this
      ensures forall i :: 0 <= i < |ds| && ds[i].pathFlow != map[] ==>
        (ds[i].source, ds[i].sink) in demandMap && EntryFor(demandMap[(ds[i].source, ds[i].sink)], ds[i], lids, ilids)
      ensures forall k :: k in demandMap ==>
        exists i :: 0 <= i < |ds| && ds[i].pathFlow != map[] && k == (ds[i].source, ds[i].sink)
    {
      hide EntryFor;
      var i := 0;
      while i < |ds|
        invariant 0 <= i <= |ds|
        invariant forall j :: 0 <= j < i && ds[j].pathFlow != map[] ==>
          (ds[j].source, ds[j].sink) in demandMap && EntryFor(demandMap[(ds[j].source, ds[j].sink)], ds[j], lids, ilids)
        invariant forall k :: k in demandMap ==>
          exists j :: 0 <= j < i && ds[j].pathFlow != map[] && k == (ds[j].source, ds[j].sink)
      {
        InsertPaths(ds[i], lids, ilids);
        i := i + 1;
      }
    }

    /** The identifier for a draw ran; without an entry the all-zero one. */
    method GetFid(source: Vertex, sink: Vertex, ran: real) returns (fid: Fid, i: nat)
      requires forall k :: k in demandMap ==> |demandMap[k].paths| == |demandMap[k].flows| == |demandMap[k].probs| == |demandMap[k].fids| > 0
      ensures (source, sink) !in demandMap ==> fid == {}
      ensures (source, sink) in demandMap ==>
        i < |demandMap[(source, sink)].fids| && fid == demandMap[(source, sink)].fids[i] && InInterval(demandMap[(source, sink)], i, ran)
    {
      var cumul := 0.0;
      i := 0;
      if (source, sink) !in demandMap {
        return {}, 0;
      }
      var te := demandMap[(source, sink)];
      while i < |te.flows| - 1
        invariant 0 <= i <= |te.flows| - 1
        invariant cumul == Sum(te.probs[..i])
        invariant i == 0 || cumul < ran
      {
        assert te.probs[..i + 1][..i] == te.probs[..i];
        cumul := cumul + te.probs[i];
        if ran <= cumul {
          break;
        }
        i := i + 1;
      }
      fid := te.fids[i];
    }
  }

  /** ORs the link identifiers along a source-first path into the sink's internal identifier. */
  method FidOf(path: Path, sink: Vertex, lids: map<Edge, Fid>, ilids: map<Vertex, Fid>) returns (fid: Fid)
    requires |path| >= 1 && sink in ilids
    requires forall i :: 0 <= i < |path| - 1 ==> Edge(path[i], path[i + 1]) in lids
    ensures fid == PathBits(lids, path) + ilids[sink]
    ensures forall b :: b in fid <==>
      b in ilids[sink] || exists i :: 0 <= i < |path| - 1 && Edge(path[i], path[i + 1]) in lids && b in lids[Edge(path[i], path[i + 1])]
  {
    fid := ilids[sink];
    var head := path[0];
    var i := 1;
    while i < |path|
      invariant 1 <= i <= |path| && head == path[i - 1]
      invariant fid == PathBits(lids, path[..i]) + ilids[sink]
    {
      var tail := path[i];
      assert Edge(path[i - 1], path[i - 1 + 1]) in lids;
      assert path[..i + 1][..i] == path[..i];
      fid := fid + lids[Edge(head, tail)];
      head := tail;
      i := i + 1;
    }
    assert path[..i] == path;
    PathBitsCover(lids, path);
  }
}
