/**
 The topology manager's graph, and the forwarding identifiers it computes for publishers and
 subscribers.
 */
module PathFids {
  import opened LinkIds
  import opened Forwarding

  type Label = string

  datatype Option<T> = None | Some(value: T)

  const UINT_MAX: nat := 0xFFFF_FFFF

  datatype Edge = Edge(src: nat, dst: nat, lid: Fid)

  // ---------- shortest paths, as the graph library promises them ----------

  ghost predicate HasEdge(edges: seq<Edge>, u: nat, v: nat) {
    exists i :: 0 <= i < |edges| && edges[i].src == u && edges[i].dst == v
  }

  ghost predicate VertexPath(edges: seq<Edge>, p: seq<nat>, s: nat, t: nat) {
    && p != [] && p[0] == s && p[|p| - 1] == t
    && forall i :: 0 <= i < |p| - 1 ==> Step(edges, p, i)
  }

  ghost predicate Step(edges: seq<Edge>, p: seq<nat>, i: nat)
    requires i + 1 < |p|
  {
    HasEdge(edges, p[i], p[i + 1])
  }

  /** From vertex to vertex, the vertices of a path with as few of them as possible; none if there is no path. */
  type Router = (seq<Edge>, nat, nat) -> seq<nat>

  ghost predicate Shortest(route: Router, edges: seq<Edge>, s: nat, t: nat) {
    var p := route(edges, s, t);
    if p == [] then forall q :: !VertexPath(edges, q, s, t)
    else VertexPath(edges, p, s, t) && |p| < UINT_MAX && forall q :: VertexPath(edges, q, s, t) ==> |p| <= |q|
  }

  ghost predicate IsRouter(route: Router) {
    forall edges, s, t :: Shortest(route, edges, s, t)
  }

  /** No two edges join the same vertices in the same direction. */
  ghost predicate Simple(edges: seq<Edge>) {
    forall i, j :: 0 <= i < |edges| && 0 <= j < |edges| && edges[i].src == edges[j].src && edges[i].dst == edges[j].dst ==> i == j
  }

  ghost predicate Carries(edges: seq<Edge>, u: nat, v: nat, lid: Fid) {
    exists i :: 0 <= i < |edges| && edges[i] == Edge(u, v, lid)
  }

  /** fid is the union of the identifiers of the edges along p. */
  ghost predicate OredAlong(edges: seq<Edge>, p: seq<nat>, fid: Fid) {
    && (forall i :: 0 <= i < |p| - 1 ==> StepLid(edges, p, i, fid))
    && (forall b :: b in fid ==> exists i {:trigger BitOf(edges, p, i, b)} :: 0 <= i < |p| - 1 && BitOf(edges, p, i, b))
  }

  ghost predicate StepLid(edges: seq<Edge>, p: seq<nat>, i: nat, fid: Fid)
    requires i + 1 < |p|
  {
    exists lid :: Carries(edges, p[i], p[i + 1], lid) && lid <= fid
  }

  ghost predicate BitOf(edges: seq<Edge>, p: seq<nat>, i: nat, b: nat)
    requires i + 1 < |p|
  {
    exists lid :: Carries(edges, p[i], p[i + 1], lid) && b in lid
  }

  datatype Graph = Graph(edges: seq<Edge>, nodeIndex: map<Label, nat>, nodeILid: map<Label, Fid>)

  ghost predicate Knows(g: Graph, l: Label) {
    l in g.nodeIndex && l in g.nodeILid
  }

  /** Hop count and identifier of the way from one labelled node to another. */
  ghost predicate IsWay(g: Graph, route: Router, p: Label, s: Label, fid: Fid, hops: nat)
    requires Knows(g, p) && Knows(g, s)
  {
    var path := route(g.edges, g.nodeIndex[p], g.nodeIndex[s]);
    && hops == (if path == [] then UINT_MAX else |path|)
    && exists ored :: OredAlong(g.edges, path, ored) && fid == ored + g.nodeILid[s]
  }

  lemma {:induction false} LidUnique(edges: seq<Edge>, u: nat, v: nat, a: Fid, b: Fid)
    requires Simple(edges) && Carries(edges, u, v, a) && Carries(edges, u, v, b)
    ensures a == b
  {
  }

  lemma OredUnique(edges: seq<Edge>, p: seq<nat>, a: Fid, b: Fid)
    requires Simple(edges) && OredAlong(edges, p, a) && OredAlong(edges, p, b)
    ensures a == b
  {
    OredIncluded(edges, p, a, b);
    OredIncluded(edges, p, b, a);
  }

  lemma OredIncluded(edges: seq<Edge>, p: seq<nat>, a: Fid, b: Fid)
    requires Simple(edges) && OredAlong(edges, p, a) && OredAlong(edges, p, b)
    ensures a <= b
  {
    hide Simple, Carries;
    forall x | x in a ensures x in b {
      var i :| 0 <= i < |p| - 1 && BitOf(edges, p, i, x);
      var lid :| Carries(edges, p[i], p[i + 1], lid) && x in lid;
      assert StepLid(edges, p, i, b);
      var lid' :| Carries(edges, p[i], p[i + 1], lid') && lid' <= b;
      LidUnique(edges, p[i], p[i + 1], lid, lid');
    }
  }

  // ---------- choosing a publisher for every subscriber ----------

  /** The best publisher so far, carried over from subscriber to subscriber. */
  datatype Best = Best(publisher: Label, fid: Fid, hops: nat)

  /** What hops and fids say about the first k publishers, starting from what is carried over. */
  function BestFor(pubs: seq<Label>, k: nat, s: Label, hops: (Label, Label) -> nat, fids: (Label, Label) -> Fid, carried: Best): Best
    requires k <= |pubs|
  {
    if k == 0 then Best(carried.publisher, carried.fid, UINT_MAX)
    else
      var b := BestFor(pubs, k - 1, s, hops, fids, carried);
      if b.hops > hops(pubs[k - 1], s) then Best(pubs[k - 1], fids(pubs[k - 1], s), hops(pubs[k - 1], s)) else b
  }

  type Fids = map<Label, Option<Fid>>

  /** The first identifier of a publisher is stored, later ones are ORed in; but after an unreachable subscriber it is replaced. */
  function Store(result: Fids, b: Best): Fids {
    if b.publisher !in result || result[b.publisher].None? || b.hops == UINT_MAX then result[b.publisher := Some(b.fid)]
    else result[b.publisher := Some(result[b.publisher].value + b.fid)]
  }

  datatype Progress = Progress(result: Fids, best: Best)

  const Nobody := Best("", {}, UINT_MAX)

  /** The outcome for the subscribers in order. */
  function Outcome(pubs: seq<Label>, subs: seq<Label>, hops: (Label, Label) -> nat, fids: (Label, Label) -> Fid): Progress {
    if subs == [] then Progress(map p | p in pubs :: None, Nobody)
    else
      var before := Outcome(pubs, subs[..|subs| - 1], hops, fids);
      var b := BestFor(pubs, |pubs|, subs[|subs| - 1], hops, fids, before.best);
      Progress(Store(before.result, b), b)
  }

  /** Publisher p is the first of those with the fewest hops to s. */
  predicate Nearest(pubs: seq<Label>, s: Label, hops: (Label, Label) -> nat, i: nat) {
    && i < |pubs| && hops(pubs[i], s) < UINT_MAX
    && (forall j :: 0 <= j < |pubs| ==> hops(pubs[i], s) <= hops(pubs[j], s))
    && (forall j :: 0 <= j < i ==> hops(pubs[i], s) < hops(pubs[j], s))
  }

  ghost predicate Reachable(pubs: seq<Label>, s: Label, hops: (Label, Label) -> nat) {
    exists i :: 0 <= i < |pubs| && hops(pubs[i], s) < UINT_MAX
  }

  /** If s is reachable the nearest publisher is chosen, whatever is carried over; otherwise what is carried over stays. */
  lemma {:induction false} BestIsNearest(pubs: seq<Label>, k: nat, s: Label, hops: (Label, Label) -> nat, fids: (Label, Label) -> Fid,
                                         carried: Best) returns (i: nat)
    requires k <= |pubs|
    ensures Reachable(pubs[..k], s, hops) ==>
      && Nearest(pubs[..k], s, hops, i)
      && BestFor(pubs, k, s, hops, fids, carried) == Best(pubs[i], fids(pubs[i], s), hops(pubs[i], s))
    ensures !Reachable(pubs[..k], s, hops) ==> BestFor(pubs, k, s, hops, fids, carried) == Best(carried.publisher, carried.fid, UINT_MAX)
  {
    i := 0;
    if k > 0 {
      i := BestIsNearest(pubs, k - 1, s, hops, fids, carried);
      var front := pubs[..k - 1];
      assert pubs[..k] == front + [pubs[k - 1]];
      if Reachable(front, s, hops) {
        var j :| 0 <= j < |front| && hops(front[j], s) < UINT_MAX;
        assert pubs[..k][j] == front[j];
      }
      if BestFor(pubs, k - 1, s, hops, fids, carried).hops > hops(pubs[k - 1], s) {
        i := k - 1;
        assert pubs[..k][i] == pubs[k - 1];
      }
    }
  }

  lemma NearestUnique(pubs: seq<Label>, s: Label, hops: (Label, Label) -> nat, i: nat, j: nat)
    requires Nearest(pubs, s, hops, i) && Nearest(pubs, s, hops, j)
    ensures i == j
  {
  }

  /** The publisher serving s; "" if none can. */
  ghost function ServedBy(pubs: seq<Label>, s: Label, hops: (Label, Label) -> nat): Label {
    if exists i: nat :: Nearest(pubs, s, hops, i) then (var i: nat :| Nearest(pubs, s, hops, i); pubs[i]) else ""
  }

  lemma ServedByNearest(pubs: seq<Label>, s: Label, hops: (Label, Label) -> nat, i: nat)
    requires Nearest(pubs, s, hops, i)
    ensures ServedBy(pubs, s, hops) == pubs[i]
  {
    var j: nat :| Nearest(pubs, s, hops, j) && ServedBy(pubs, s, hops) == pubs[j];
    NearestUnique(pubs, s, hops, i, j);
  }

  /** All identifiers of the subscribers publisher p serves, ORed together. */
  ghost function Served(pubs: seq<Label>, subs: seq<Label>, hops: (Label, Label) -> nat, fids: (Label, Label) -> Fid, p: Label): Option<Fid> {
    if subs == [] then None
    else
      var before := Served(pubs, subs[..|subs| - 1], hops, fids, p);
      var s := subs[|subs| - 1];
      if ServedBy(pubs, s, hops) != p then before
      else if before.None? then Some(fids(p, s)) else Some(before.value + fids(p, s))
  }

  ghost predicate AllReachable(pubs: seq<Label>, subs: seq<Label>, hops: (Label, Label) -> nat) {
    forall k :: 0 <= k < |subs| ==> Reachable(pubs, subs[k], hops)
  }

  /** Every publisher has exactly the identifiers of the subscribers it serves. */
  ghost predicate IsServed(result: Fids, pubs: seq<Label>, subs: seq<Label>, hops: (Label, Label) -> nat, fids: (Label, Label) -> Fid) {
    && (forall p :: p in result <==> p in pubs)
    && (forall p :: p in pubs ==> result[p] == Served(pubs, subs, hops, fids, p))
  }

  /** If every subscriber can be reached, every publisher gets exactly the identifiers of the subscribers it is nearest to. */
  lemma {:induction false} OutcomeIsServed(pubs: seq<Label>, subs: seq<Label>, hops: (Label, Label) -> nat, fids: (Label, Label) -> Fid)
    requires AllReachable(pubs, subs, hops)
    ensures IsServed(Outcome(pubs, subs, hops, fids).result, pubs, subs, hops, fids)
    ensures subs != [] ==>
      var s := subs[|subs| - 1];
      var p := ServedBy(pubs, s, hops);
      p in pubs && Outcome(pubs, subs, hops, fids).best == Best(p, fids(p, s), hops(p, s)) && hops(p, s) < UINT_MAX
  {
    hide BestFor, ServedBy, Nearest, Reachable, Store, Served;
    if subs == [] {
      NothingServed(pubs, hops, fids);
    } else {
      var n := |subs| - 1;
      var front, s := subs[..n], subs[n];
      assert AllReachable(pubs, front, hops) by {
        assert forall k :: 0 <= k < n ==> front[k] == subs[k];
      }
      OutcomeIsServed(pubs, front, hops, fids);
      var carried := Outcome(pubs, front, hops, fids).best;
      ReachableBest(pubs, s, hops, fids, carried);
      ServeStep(Outcome(pubs, front, hops, fids).result, pubs, subs, hops, fids, BestFor(pubs, |pubs|, s, hops, fids, carried));
    }
  }

  lemma NothingServed(pubs: seq<Label>, hops: (Label, Label) -> nat, fids: (Label, Label) -> Fid)
    ensures forall p :: Served(pubs, [], hops, fids, p) == None
  {
  }

  lemma ReachableBest(pubs: seq<Label>, s: Label, hops: (Label, Label) -> nat, fids: (Label, Label) -> Fid, carried: Best)
    requires Reachable(pubs, s, hops)
    ensures var p := ServedBy(pubs, s, hops);
      p in pubs && hops(p, s) < UINT_MAX && BestFor(pubs, |pubs|, s, hops, fids, carried) == Best(p, fids(p, s), hops(p, s))
  {
    var i := BestIsNearest(pubs, |pubs|, s, hops, fids, carried);
    assert pubs[..|pubs|] == pubs;
    ServedByNearest(pubs, s, hops, i);
  }

  lemma ServeStep(before: Fids, pubs: seq<Label>, subs: seq<Label>, hops: (Label, Label) -> nat, fids: (Label, Label) -> Fid, b: Best)
    requires subs != [] && b.publisher == ServedBy(pubs, subs[|subs| - 1], hops) && b.publisher in pubs && b.hops < UINT_MAX
    requires b.fid == fids(b.publisher, subs[|subs| - 1]) && IsServed(before, pubs, subs[..|subs| - 1], hops, fids)
    ensures IsServed(Store(before, b), pubs, subs, hops, fids)
  {
    hide Served, ServedBy;
    forall p | p in pubs ensures Store(before, b)[p] == Served(pubs, subs, hops, fids, p) {
      ServedLast(pubs, subs, hops, fids, p, b);
    }
  }

  function ServedMore(before: Option<Fid>, p: Label, b: Best): Option<Fid> {
    if b.publisher != p then before else if before.None? then Some(b.fid) else Some(before.value + b.fid)
  }

  lemma ServedLast(pubs: seq<Label>, subs: seq<Label>, hops: (Label, Label) -> nat, fids: (Label, Label) -> Fid, p: Label, b: Best)
    requires subs != [] && b.publisher == ServedBy(pubs, subs[|subs| - 1], hops) && b.fid == fids(b.publisher, subs[|subs| - 1])
    ensures Served(pubs, subs, hops, fids, p) == ServedMore(Served(pubs, subs[..|subs| - 1], hops, fids, p), p, b)
  {
    hide ServedBy;
  }

  /** The identifier computed for the publisher that serves subscriber k contains the way to that subscriber. */
  ghost predicate Covered(result: Fids, pubs: seq<Label>, s: Label, hops: (Label, Label) -> nat, fids: (Label, Label) -> Fid) {
    var p := ServedBy(pubs, s, hops);
    p in result && result[p].Some? && fids(p, s) <= result[p].value
  }

  lemma {:induction false} ServedCovers(pubs: seq<Label>, subs: seq<Label>, hops: (Label, Label) -> nat, fids: (Label, Label) -> Fid, k: nat)
    requires k < |subs|
    ensures var p := ServedBy(pubs, subs[k], hops);
      Served(pubs, subs, hops, fids, p).Some? && fids(p, subs[k]) <= Served(pubs, subs, hops, fids, p).value
    decreases |subs|
  {
    if k < |subs| - 1 {
      ServedCovers(pubs, subs[..|subs| - 1], hops, fids, k);
    }
  }

  /** Every subscriber is covered by its nearest publisher if all of them can be reached. */
  lemma EverySubscriberCovered(pubs: seq<Label>, subs: seq<Label>, hops: (Label, Label) -> nat, fids: (Label, Label) -> Fid, k: nat)
    requires AllReachable(pubs, subs, hops) && k < |subs|
    ensures Covered(Outcome(pubs, subs, hops, fids).result, pubs, subs[k], hops, fids)
    ensures exists i: nat :: Nearest(pubs, subs[k], hops, i) && ServedBy(pubs, subs[k], hops) == pubs[i]
  {
    OutcomeIsServed(pubs, subs, hops, fids);
    ServedCovers(pubs, subs, hops, fids, k);
    assert Reachable(pubs, subs[k], hops);
    var i := BestIsNearest(pubs, |pubs|, subs[k], hops, fids, Nobody);
    assert pubs[..|pubs|] == pubs;
    ServedByNearest(pubs, subs[k], hops, i);
  }

  // ---------- subscribers that cannot be reached ----------

  ghost predicate Can(pubs: seq<Label>, subs: seq<Label>, hops: (Label, Label) -> nat, k: nat)
    requires k < |subs|
  {
    Reachable(pubs, subs[k], hops)
  }

  /** Subscriber c is served by p, and the one after it cannot be reached: p's identifier is replaced by c's. */
  ghost predicate Replaces(pubs: seq<Label>, subs: seq<Label>, hops: (Label, Label) -> nat, p: Label, c: nat) {
    && c + 1 < |subs| && Can(pubs, subs, hops, c) && ServedBy(pubs, subs[c], hops) == p && !Can(pubs, subs, hops, c + 1)
  }

  /** Subscriber k is served by p, and no later subscriber served by p is followed by an unreachable one. */
  ghost predicate Kept(pubs: seq<Label>, subs: seq<Label>, hops: (Label, Label) -> nat, p: Label, k: nat) {
    && k < |subs| && Can(pubs, subs, hops, k) && ServedBy(pubs, subs[k], hops) == p
    && forall c {:trigger Replaces(pubs, subs, hops, p, c)} :: k < c < |subs| ==> !Replaces(pubs, subs, hops, p, c)
  }

  ghost predicate KeptBit(pubs: seq<Label>, subs: seq<Label>, hops: (Label, Label) -> nat, fids: (Label, Label) -> Fid, p: Label, k: nat, b: nat) {
    Kept(pubs, subs, hops, p, k) && b in fids(p, subs[k])
  }

  function BitsOf(result: Fids, p: Label): Fid {
    if p in result && result[p].Some? then result[p].value else {}
  }

  /** p's identifier consists of the bits of the subscribers kept for it. */
  ghost predicate HoldsKept(result: Fids, pubs: seq<Label>, subs: seq<Label>, hops: (Label, Label) -> nat, fids: (Label, Label) -> Fid, p: Label) {
    forall b :: b in BitsOf(result, p) <==> exists k: nat :: KeptBit(pubs, subs, hops, fids, p, k, b)
  }

  /** What is carried over after the list: the choice for its last reachable subscriber. */
  ghost predicate CarriesLast(best: Best, pubs: seq<Label>, subs: seq<Label>, hops: (Label, Label) -> nat, fids: (Label, Label) -> Fid, c: int) {
    && -1 <= c < |subs|
    && (forall j :: c < j < |subs| ==> !Can(pubs, subs, hops, j))
    && if c == -1 then best.publisher == "" && best.fid == {}
       else Can(pubs, subs, hops, c) && best.publisher == ServedBy(pubs, subs[c], hops) && best.fid == fids(best.publisher, subs[c])
  }

  lemma CanFront(pubs: seq<Label>, subs: seq<Label>, hops: (Label, Label) -> nat)
    requires subs != []
    ensures forall k :: 0 <= k < |subs| - 1 ==> subs[..|subs| - 1][k] == subs[k] && Can(pubs, subs[..|subs| - 1], hops, k) == Can(pubs, subs, hops, k)
  {
    hide Reachable;
  }

  lemma ReplacesFront(pubs: seq<Label>, subs: seq<Label>, hops: (Label, Label) -> nat, p: Label, c: nat)
    requires subs != [] && c + 1 < |subs|
    ensures c + 2 < |subs| ==> Replaces(pubs, subs, hops, p, c) == Replaces(pubs, subs[..|subs| - 1], hops, p, c)
  {
    hide Can, ServedBy;
    CanFront(pubs, subs, hops);
  }

  /** A reachable subscriber is kept, and so is everything kept before. */
  lemma KeptAfterReachable(pubs: seq<Label>, subs: seq<Label>, hops: (Label, Label) -> nat, p: Label, k: nat)
    requires subs != [] && Can(pubs, subs, hops, |subs| - 1)
    ensures Kept(pubs, subs, hops, p, k) <==>
      Kept(pubs, subs[..|subs| - 1], hops, p, k) || (k == |subs| - 1 && ServedBy(pubs, subs[k], hops) == p)
  {
    hide Can, ServedBy;
    var front := subs[..|subs| - 1];
    CanFront(pubs, subs, hops);
    forall c: nat | c < |subs| ensures Replaces(pubs, subs, hops, p, c) == Replaces(pubs, front, hops, p, c) {
      if c + 1 < |subs| {
        ReplacesFront(pubs, subs, hops, p, c);
      }
    }
  }

  /** An unreachable one leaves of those served by the publisher carried over only the last. */
  lemma KeptAfterUnreachable(pubs: seq<Label>, subs: seq<Label>, hops: (Label, Label) -> nat, c: int, p: Label, k: nat)
    requires subs != [] && !Can(pubs, subs, hops, |subs| - 1) && -1 <= c < |subs| - 1
    requires forall j :: c < j < |subs| - 1 ==> !Can(pubs, subs, hops, j)
    requires c >= 0 ==> Can(pubs, subs, hops, c)
    ensures Kept(pubs, subs, hops, p, k) <==>
      if c >= 0 && ServedBy(pubs, subs[c], hops) == p then k == c else Kept(pubs, subs[..|subs| - 1], hops, p, k)
  {
    hide Can, ServedBy;
    var n := |subs| - 1;
    var front := subs[..n];
    CanFront(pubs, subs, hops);
    forall j: nat | j < |subs| ensures j + 2 < |subs| ==> Replaces(pubs, subs, hops, p, j) == Replaces(pubs, front, hops, p, j) {
      if j + 1 < |subs| {
        ReplacesFront(pubs, subs, hops, p, j);
      }
    }
    if c >= 0 && ServedBy(pubs, subs[c], hops) == p {
      assert Replaces(pubs, subs, hops, p, c);
    }
  }

  /** What storing a choice does to the identifiers. */
  lemma StoreBits(result: Fids, b: Best, p: Label)
    requires b.hops < UINT_MAX || b.publisher !in result || b.hops == UINT_MAX
    ensures BitsOf(Store(result, b), p) ==
      if p != b.publisher then BitsOf(result, p) else if b.hops == UINT_MAX then b.fid else BitsOf(result, p) + b.fid
    ensures p in Store(result, b) <==> p in result || p == b.publisher
  {
  }

  lemma KeptStepReachable(before: Fids, b: Best, pubs: seq<Label>, subs: seq<Label>, hops: (Label, Label) -> nat, fids: (Label, Label) -> Fid, p: Label)
    requires subs != [] && Can(pubs, subs, hops, |subs| - 1) && HoldsKept(before, pubs, subs[..|subs| - 1], hops, fids, p)
    requires b.hops < UINT_MAX && b.publisher == ServedBy(pubs, subs[|subs| - 1], hops) && b.fid == fids(b.publisher, subs[|subs| - 1])
    ensures HoldsKept(Store(before, b), pubs, subs, hops, fids, p)
  {
    hide Can, ServedBy, Kept, Store, BitsOf;
    var n := |subs| - 1;
    StoreBits(before, b, p);
    forall x ensures x in BitsOf(Store(before, b), p) <==> exists k: nat :: KeptBit(pubs, subs, hops, fids, p, k, x) {
      forall k: nat ensures KeptBit(pubs, subs, hops, fids, p, k, x) <==>
        KeptBit(pubs, subs[..n], hops, fids, p, k, x) || (k == n && b.publisher == p && x in b.fid)
      {
        KeptAfterReachable(pubs, subs, hops, p, k);
        KeptNeedsRange(pubs, subs[..n], hops, p, k);
      }
      assert KeptBit(pubs, subs, hops, fids, p, n, x) <==> KeptBit(pubs, subs[..n], hops, fids, p, n, x) || (b.publisher == p && x in b.fid);
    }
  }

  lemma KeptStepUnreachable(before: Fids, b: Best, pubs: seq<Label>, subs: seq<Label>, hops: (Label, Label) -> nat, fids: (Label, Label) -> Fid,
                            c: int, p: Label)
    requires subs != [] && !Can(pubs, subs, hops, |subs| - 1) && HoldsKept(before, pubs, subs[..|subs| - 1], hops, fids, p)
    requires CarriesLast(b, pubs, subs[..|subs| - 1], hops, fids, c) && b.hops == UINT_MAX
    ensures HoldsKept(Store(before, b), pubs, subs, hops, fids, p)
  {
    hide Can, ServedBy, Kept, Store, BitsOf;
    var n := |subs| - 1;
    CanFront(pubs, subs, hops);
    StoreBits(before, b, p);
    forall x ensures x in BitsOf(Store(before, b), p) <==> exists k: nat :: KeptBit(pubs, subs, hops, fids, p, k, x) {
      forall k: nat ensures KeptBit(pubs, subs, hops, fids, p, k, x) <==>
        if c >= 0 && b.publisher == p then k == c && x in b.fid else KeptBit(pubs, subs[..n], hops, fids, p, k, x)
      {
        KeptAfterUnreachable(pubs, subs, hops, c, p, k);
        KeptNeedsRange(pubs, subs[..n], hops, p, k);
        if c >= 0 && k == c && b.publisher == p {
          assert subs[k] == subs[..n][c];
        }
      }
      if c >= 0 && b.publisher == p {
        assert KeptBit(pubs, subs, hops, fids, p, c, x) <==> x in b.fid;
      }
      if c == -1 {
        NoneKept(pubs, subs[..n], hops, p);
      }
    }
  }

  lemma KeptNeedsRange(pubs: seq<Label>, subs: seq<Label>, hops: (Label, Label) -> nat, p: Label, k: nat)
    ensures Kept(pubs, subs, hops, p, k) ==> k < |subs|
  {
  }

  lemma NoneKept(pubs: seq<Label>, subs: seq<Label>, hops: (Label, Label) -> nat, p: Label)
    requires forall j :: 0 <= j < |subs| ==> !Can(pubs, subs, hops, j)
    ensures forall k: nat :: !Kept(pubs, subs, hops, p, k)
  {
  }

  /** The outcome for any subscribers: every publisher holds exactly the bits of the subscribers kept for it; and the
      empty name becomes a publisher exactly if the first subscriber cannot be reached. */
  lemma {:induction false} OutcomeIsKept(pubs: seq<Label>, subs: seq<Label>, hops: (Label, Label) -> nat, fids: (Label, Label) -> Fid)
    returns (c: int)
    ensures CarriesLast(Outcome(pubs, subs, hops, fids).best, pubs, subs, hops, fids, c)
    ensures forall p :: HoldsKept(Outcome(pubs, subs, hops, fids).result, pubs, subs, hops, fids, p)
    ensures forall p :: p in Outcome(pubs, subs, hops, fids).result <==>
      p in pubs || (p == "" && subs != [] && !Reachable(pubs, subs[0], hops))
  {
    hide BestFor, ServedBy, Reachable, Store, HoldsKept;
    if subs == [] {
      c := -1;
      forall p ensures HoldsKept(Outcome(pubs, [], hops, fids).result, pubs, [], hops, fids, p) {
        NothingKept(pubs, hops, fids, p);
      }
    } else {
      var n := |subs| - 1;
      var front, s := subs[..n], subs[n];
      c := OutcomeIsKept(pubs, front, hops, fids);
      var before := Outcome(pubs, front, hops, fids);
      var b := BestFor(pubs, |pubs|, s, hops, fids, before.best);
      CanFront(pubs, subs, hops);
      if Reachable(pubs, s, hops) {
        ReachableBest(pubs, s, hops, fids, before.best);
        forall p ensures HoldsKept(Store(before.result, b), pubs, subs, hops, fids, p) && (p in Store(before.result, b) <==> p in before.result) {
          StoreBits(before.result, b, p);
          KeptStepReachable(before.result, b, pubs, subs, hops, fids, p);
        }
        c := n;
      } else {
        UnreachableBest(pubs, s, hops, fids, before.best);
        forall p ensures HoldsKept(Store(before.result, b), pubs, subs, hops, fids, p)
          && (p in Store(before.result, b) <==> p in before.result || p == b.publisher)
        {
          StoreBits(before.result, b, p);
          KeptStepUnreachable(before.result, b, pubs, subs, hops, fids, c, p);
        }
        if c >= 0 {
          ServedByIn(pubs, subs[c], hops);
        }
      }
    }
  }

  lemma NothingKept(pubs: seq<Label>, hops: (Label, Label) -> nat, fids: (Label, Label) -> Fid, p: Label)
    ensures HoldsKept(Outcome(pubs, [], hops, fids).result, pubs, [], hops, fids, p)
  {
  }

  lemma UnreachableBest(pubs: seq<Label>, s: Label, hops: (Label, Label) -> nat, fids: (Label, Label) -> Fid, carried: Best)
    requires !Reachable(pubs, s, hops)
    ensures BestFor(pubs, |pubs|, s, hops, fids, carried) == Best(carried.publisher, carried.fid, UINT_MAX)
  {
    var i := BestIsNearest(pubs, |pubs|, s, hops, fids, carried);
    assert pubs[..|pubs|] == pubs;
  }

  lemma ServedByIn(pubs: seq<Label>, s: Label, hops: (Label, Label) -> nat)
    requires Reachable(pubs, s, hops)
    ensures ServedBy(pubs, s, hops) in pubs
  {
    ReachableBest(pubs, s, hops, (p: Label, x: Label) => {}, Nobody);
  }

  /** A publisher nearest to some subscriber ends up with an identifier. */
  lemma {:induction false} ServedIsSome(pubs: seq<Label>, subs: seq<Label>, hops: (Label, Label) -> nat, fids: (Label, Label) -> Fid, k: nat)
    requires k < |subs| && Reachable(pubs, subs[k], hops)
    ensures var p := ServedBy(pubs, subs[k], hops);
      p in Outcome(pubs, subs, hops, fids).result && Outcome(pubs, subs, hops, fids).result[p].Some?
    decreases |subs|
  {
    hide BestFor, ServedBy, Reachable;
    var n := |subs| - 1;
    if k < n {
      assert subs[..n][k] == subs[k];
      ServedIsSome(pubs, subs[..n], hops, fids, k);
    } else {
      ReachableBest(pubs, subs[n], hops, fids, Outcome(pubs, subs[..n], hops, fids).best);
    }
  }

  /** A reachable subscriber is covered exactly if its links are among those of the subscribers kept for its publisher. */
  lemma CoveredExactly(pubs: seq<Label>, subs: seq<Label>, hops: (Label, Label) -> nat, fids: (Label, Label) -> Fid, k: nat)
    requires k < |subs| && Reachable(pubs, subs[k], hops)
    ensures var p := ServedBy(pubs, subs[k], hops);
      Covered(Outcome(pubs, subs, hops, fids).result, pubs, subs[k], hops, fids) <==>
        forall b :: b in fids(p, subs[k]) ==> exists j: nat :: KeptBit(pubs, subs, hops, fids, p, j, b)
  {
    hide ServedBy, Reachable, Outcome, Kept;
    var c := OutcomeIsKept(pubs, subs, hops, fids);
    ServedIsSome(pubs, subs, hops, fids, k);
    var p, result := ServedBy(pubs, subs[k], hops), Outcome(pubs, subs, hops, fids).result;
    assert HoldsKept(result, pubs, subs, hops, fids, p) && BitsOf(result, p) == result[p].value;
    assert forall b :: b in fids(p, subs[k]) ==> (b in BitsOf(result, p) <==> exists j: nat :: KeptBit(pubs, subs, hops, fids, p, j, b));
  }

  /** So it is covered if no later subscriber of its publisher is followed by an unreachable one. */
  lemma KeptIsCovered(pubs: seq<Label>, subs: seq<Label>, hops: (Label, Label) -> nat, fids: (Label, Label) -> Fid, k: nat)
    requires k < |subs| && Reachable(pubs, subs[k], hops) && Kept(pubs, subs, hops, ServedBy(pubs, subs[k], hops), k)
    ensures Covered(Outcome(pubs, subs, hops, fids).result, pubs, subs[k], hops, fids)
  {
    hide ServedBy, Reachable, Outcome, Covered, Kept;
    CoveredExactly(pubs, subs, hops, fids, k);
    var p := ServedBy(pubs, subs[k], hops);
    assert forall b :: b in fids(p, subs[k]) ==> KeptBit(pubs, subs, hops, fids, p, k, b);
  }

  function LostHops(p: Label, s: Label): nat {
    if s == "z" then UINT_MAX else 2
  }

  function LostFids(p: Label, s: Label): Fid {
    if s == "x" then {1} else if s == "y" then {2} else {}
  }

  /** A publisher, two subscribers on different links, and a third one that cannot be reached: the first is lost, even
      if more subscribers follow. */
  lemma SubscriberLost(more: seq<Label>)
    requires more == [] || more == ["zz"]
    ensures Reachable(["p"], "x", LostHops)
    ensures !Covered(Outcome(["p"], ["x", "y", "z"] + more, LostHops, LostFids).result, ["p"], "x", LostHops, LostFids)
  {
    hide Outcome, Covered, ServedBy;
    var pubs, subs := ["p"], ["x", "y", "z"] + more;
    forall s | s != "z" ensures Reachable(pubs, s, LostHops) && ServedBy(pubs, s, LostHops) == "p" {
      assert LostHops(pubs[0], s) < UINT_MAX;
      assert Nearest(pubs, s, LostHops, 0);
      ServedByNearest(pubs, s, LostHops, 0);
    }
    assert subs[0] == "x" && subs[1] == "y" && subs[2] == "z";
    assert Replaces(pubs, subs, LostHops, "p", 1);
    forall j: nat ensures !KeptBit(pubs, subs, LostHops, LostFids, "p", j, 1) {
    }
    assert 1 in LostFids("p", "x");
    CoveredExactly(pubs, subs, LostHops, LostFids, 0);
  }
}
