/**
 Links that fail and recover: which edges of the topology graph are live, and which have been put
 aside with their identifiers.
 */
module LinkFailures {
  import opened LinkIds
  import opened PathFids

  type Pair = (Label, Label)

  /** The live edges in the order of their edge ids, and the identifiers of the failed ones. */
  datatype LinkState = LinkState(edges: seq<Edge>, removed: map<Pair, Fid>)

  /** A report: source, destination, kind of link ("e" for both directions, "o" for one), and whether it is up again. */
  datatype Report = Report(source: Label, destination: Label, net: string, up: bool)

  function Without(edges: seq<Edge>, u: nat, v: nat): (out: seq<Edge>)
    ensures forall e :: e in out <==> e in edges && !(e.src == u && e.dst == v)
    ensures |out| <= |edges|
  {
    if edges == [] then []
    else
      var e := edges[|edges| - 1];
      Without(edges[..|edges| - 1], u, v) + if e.src == u && e.dst == v then [] else [e]
  }

  ghost predicate Joined(edges: seq<Edge>, u: nat, v: nat) {
    exists e :: e in edges && e.src == u && e.dst == v
  }

  function LidOf(edges: seq<Edge>, u: nat, v: nat): (lid: Fid)
    requires Joined(edges, u, v)
    ensures Edge(u, v, lid) in edges
  {
    var e := edges[|edges| - 1];
    if e.src == u && e.dst == v then e.lid else LidOf(edges[..|edges| - 1], u, v)
  }

  ghost predicate Injective(index: map<Label, nat>) {
    forall a, b :: a in index && b in index && index[a] == index[b] ==> a == b
  }

  /** The vertices are known, no edge is double, and nothing is live and failed at once. */
  ghost predicate Sound(st: LinkState, index: map<Label, nat>) {
    && Injective(index) && Simple(st.edges)
    && (forall p: Pair :: p in st.removed ==> p.0 in index && p.1 in index && !Joined(st.edges, index[p.0], index[p.1]))
  }

  /** Both directions of the reported link are known, live or failed. */
  ghost predicate KnownLink(st: LinkState, index: map<Label, nat>, r: Report) {
    && r.source in index && r.destination in index && r.source != r.destination
    && KnownPair(st, index, (r.source, r.destination))
    && (r.net == "e" ==> KnownPair(st, index, (r.destination, r.source)))
  }

  ghost predicate KnownPair(st: LinkState, index: map<Label, nat>, p: Pair)
    requires p.0 in index && p.1 in index
  {
    p in st.removed || Joined(st.edges, index[p.0], index[p.1])
  }

  function Restore(st: LinkState, index: map<Label, nat>, p: Pair): LinkState
    requires p in st.removed && p.0 in index && p.1 in index
  {
    LinkState(st.edges + [Edge(index[p.0], index[p.1], st.removed[p])], st.removed - {p})
  }

  ghost function Fail(st: LinkState, index: map<Label, nat>, p: Pair): LinkState
    requires p.0 in index && p.1 in index && Joined(st.edges, index[p.0], index[p.1])
  {
    LinkState(Without(st.edges, index[p.0], index[p.1]), st.removed[p := LidOf(st.edges, index[p.0], index[p.1])])
  }

  /** What a report does. */
  ghost function Update(st: LinkState, index: map<Label, nat>, r: Report): LinkState
    requires Sound(st, index) && KnownLink(st, index, r)
  {
    var there, back := (r.source, r.destination), (r.destination, r.source);
    if r.up then
      if there !in st.removed then st
      else
        var st1 := Restore(st, index, there);
        if r.net == "e" && back in st1.removed then Restore(st1, index, back) else st1
    else if r.net == "e" then
      if there in st.removed || back in st.removed then st
      else
        StillJoined(st.edges, index[r.source], index[r.destination], index[r.destination], index[r.source]);
        Fail(Fail(st, index, there), index, back)
    else if r.net == "o" then
      if there in st.removed then st else Fail(st, index, there)
    else st
  }

  lemma StillJoined(edges: seq<Edge>, u: nat, v: nat, a: nat, b: nat)
    requires Joined(edges, a, b) && !(a == u && b == v)
    ensures Joined(Without(edges, u, v), a, b)
  {
    var e :| e in edges && e.src == a && e.dst == b;
    assert e in Without(edges, u, v);
  }

  /** All labelled links the domain has, live or failed. */
  ghost function AllLinks(st: LinkState, index: map<Label, nat>): set<Edge> {
    LiveLinks(st) + set p | p in st.removed && p.0 in index && p.1 in index :: Edge(index[p.0], index[p.1], st.removed[p])
  }

  ghost function LiveLinks(st: LinkState): set<Edge> {
    set e | e in st.edges
  }

  lemma {:induction false} WithoutIsSimple(edges: seq<Edge>, u: nat, v: nat)
    requires Simple(edges)
    ensures Simple(Without(edges, u, v)) && !Joined(Without(edges, u, v), u, v)
  {
    if edges != [] {
      var front := edges[..|edges| - 1];
      SimpleFront(edges);
      WithoutIsSimple(front, u, v);
      var e := edges[|edges| - 1];
      if !(e.src == u && e.dst == v) {
        assert forall x :: x in Without(front, u, v) ==> x in front;
        NotInFront(edges, e);
        SimpleMore(Without(front, u, v), e);
      }
    }
  }

  lemma SimpleFront(edges: seq<Edge>)
    requires Simple(edges) && edges != []
    ensures Simple(edges[..|edges| - 1])
  {
  }

  lemma NotInFront(edges: seq<Edge>, e: Edge)
    requires Simple(edges) && edges != [] && e == edges[|edges| - 1]
    ensures !Joined(edges[..|edges| - 1], e.src, e.dst)
  {
  }

  lemma SimpleMore(edges: seq<Edge>, e: Edge)
    requires Simple(edges) && !Joined(edges, e.src, e.dst)
    ensures Simple(edges + [e])
  {
  }

  lemma JoinedMore(edges: seq<Edge>, e: Edge)
    ensures forall u, v :: Joined(edges + [e], u, v) <==> Joined(edges, u, v) || (e.src == u && e.dst == v)
  {
    forall u, v ensures Joined(edges + [e], u, v) <==> Joined(edges, u, v) || (e.src == u && e.dst == v) {
      if Joined(edges, u, v) {
        var x :| x in edges && x.src == u && x.dst == v;
        assert x in edges + [e];
      }
      if e.src == u && e.dst == v {
        assert e in edges + [e];
      }
    }
  }

  /** Restoring a failed link loses and invents nothing. */
  lemma RestoreConserves(st: LinkState, index: map<Label, nat>, p: Pair)
    requires Sound(st, index) && p in st.removed
    ensures Sound(Restore(st, index, p), index) && AllLinks(Restore(st, index, p), index) == AllLinks(st, index)
    ensures LiveLinks(Restore(st, index, p)) == LiveLinks(st) + {Edge(index[p.0], index[p.1], st.removed[p])}
    ensures Joined(Restore(st, index, p).edges, index[p.0], index[p.1])
    ensures forall q: Pair :: q.0 in index && q.1 in index && KnownPair(st, index, q) ==> KnownPair(Restore(st, index, p), index, q)
  {
    var e := Edge(index[p.0], index[p.1], st.removed[p]);
    SimpleMore(st.edges, e);
    JoinedMore(st.edges, e);
    hide Joined, Simple;
    var st' := Restore(st, index, p);
    assert forall x :: x in st'.edges <==> x in st.edges || x == e;
    assert AllLinks(st', index) == AllLinks(st, index);
  }

  /** Failing a live link loses and invents nothing either. */
  lemma FailConserves(st: LinkState, index: map<Label, nat>, p: Pair)
    requires Sound(st, index) && p.0 in index && p.1 in index && Joined(st.edges, index[p.0], index[p.1]) && p !in st.removed
    ensures Sound(Fail(st, index, p), index) && AllLinks(Fail(st, index, p), index) == AllLinks(st, index)
    ensures LiveLinks(Fail(st, index, p)) == LiveLinks(st) - {Edge(index[p.0], index[p.1], LidOf(st.edges, index[p.0], index[p.1]))}
    ensures forall q: Pair :: q.0 in index && q.1 in index && KnownPair(st, index, q) ==> KnownPair(Fail(st, index, p), index, q)
  {
    var u, v := index[p.0], index[p.1];
    var st' := Fail(st, index, p);
    WithoutIsSimple(st.edges, u, v);
    OnlyEdge(st.edges, u, v);
    forall a, b ensures Joined(st'.edges, a, b) ==> Joined(st.edges, a, b) {
    }
    forall q: Pair | q.0 in index && q.1 in index && KnownPair(st, index, q) ensures KnownPair(st', index, q) {
      if q != p && q !in st.removed {
        StillJoined(st.edges, u, v, index[q.0], index[q.1]);
      }
    }
    assert AllLinks(st', index) == AllLinks(st, index) by {
      var e := Edge(u, v, LidOf(st.edges, u, v));
      assert forall x :: x in AllLinks(st', index) <==> x in AllLinks(st, index) by {
        forall x ensures x in AllLinks(st', index) <==> x in AllLinks(st, index) {
          AllLinksSplit(st, st', index, p, e, x);
        }
      }
    }
  }

  lemma AllLinksSplit(st: LinkState, st': LinkState, index: map<Label, nat>, p: Pair, e: Edge, x: Edge)
    requires p.0 in index && p.1 in index && p !in st.removed && e.src == index[p.0] && e.dst == index[p.1] && e in st.edges
    requires forall y :: y in st'.edges <==> y in st.edges && y != e
    requires st'.removed == st.removed[p := e.lid]
    ensures x in AllLinks(st', index) <==> x in AllLinks(st, index)
  {
    if x in AllLinks(st, index) && x !in LiveLinks(st) {
      var q :| q in st.removed && q.0 in index && q.1 in index && x == Edge(index[q.0], index[q.1], st.removed[q]);
      assert q in st'.removed && st'.removed[q] == st.removed[q];
    }
    if x == e {
      assert p in st'.removed && x == Edge(index[p.0], index[p.1], st'.removed[p]);
    }
    if x in AllLinks(st', index) && x !in LiveLinks(st') {
      var q :| q in st'.removed && q.0 in index && q.1 in index && x == Edge(index[q.0], index[q.1], st'.removed[q]);
      assert q != p ==> q in st.removed && st.removed[q] == st'.removed[q];
    }
  }

  lemma OnlyEdge(edges: seq<Edge>, u: nat, v: nat)
    requires Simple(edges) && Joined(edges, u, v)
    ensures forall e :: e in Without(edges, u, v) <==> e in edges && e != Edge(u, v, LidOf(edges, u, v))
  {
    var x := Edge(u, v, LidOf(edges, u, v));
    forall e | e in edges && e.src == u && e.dst == v ensures e == x {
    }
  }

  /** Every report keeps each link either live or failed, never both and never neither. */
  lemma UpdateConserves(st: LinkState, index: map<Label, nat>, r: Report)
    requires Sound(st, index) && KnownLink(st, index, r)
    ensures Sound(Update(st, index, r), index) && AllLinks(Update(st, index, r), index) == AllLinks(st, index)
    ensures forall q: Pair :: q.0 in index && q.1 in index && KnownPair(st, index, q) ==> KnownPair(Update(st, index, r), index, q)
  {
    hide Sound, AllLinks, Simple, Joined, Restore, Fail, LiveLinks;
    var there, back := (r.source, r.destination), (r.destination, r.source);
    FailedIsNotLive(st, index);
    if r.up {
      if there in st.removed {
        RestoreConserves(st, index, there);
        var st1 := Restore(st, index, there);
        if r.net == "e" && back in st1.removed {
          RestoreConserves(st1, index, back);
        }
      }
    } else if r.net == "e" {
      if there !in st.removed && back !in st.removed {
        FailConserves(st, index, there);
        FailOther(st, index, there, back);
        FailConserves(Fail(st, index, there), index, back);
      }
    } else if r.net == "o" {
      if there !in st.removed {
        FailConserves(st, index, there);
      }
    }
  }

  // ---------- what a report does ----------

  ghost predicate Joins(index: map<Label, nat>, p: Pair, e: Edge) {
    p.0 in index && p.1 in index && e.src == index[p.0] && e.dst == index[p.1]
  }

  ghost predicate JoinsOne(index: map<Label, nat>, pairs: set<Pair>, e: Edge) {
    exists p :: p in pairs && Joins(index, p, e)
  }

  /** The given live pairs, and no others, are no longer joined and are put aside under the identifier they had. */
  ghost predicate TakenDown(st: LinkState, st': LinkState, index: map<Label, nat>, pairs: set<Pair>) {
    && (forall e :: e in st'.edges <==> e in st.edges && !JoinsOne(index, pairs, e))
    && (forall p: Pair :: p in st'.removed <==> p in st.removed || p in pairs)
    && (forall p: Pair :: p in st.removed && p !in pairs ==> st'.removed[p] == st.removed[p])
    && (forall p: Pair :: p in pairs ==>
          p.0 in index && p.1 in index && !Joined(st'.edges, index[p.0], index[p.1]) && Edge(index[p.0], index[p.1], st'.removed[p]) in st.edges)
  }

  /** The given failed pairs, and no others, are joined again under the identifier they had. */
  ghost predicate BroughtUp(st: LinkState, st': LinkState, index: map<Label, nat>, pairs: set<Pair>) {
    && (forall e :: e in st'.edges <==> e in st.edges || exists p :: p in pairs && p in st.removed && Joins(index, p, e) && e.lid == st.removed[p])
    && (forall p: Pair :: p in st'.removed <==> p in st.removed && p !in pairs)
    && (forall p: Pair :: p in st'.removed ==> st'.removed[p] == st.removed[p])
    && (forall p: Pair :: p in pairs ==> p.0 in index && p.1 in index && Joined(st'.edges, index[p.0], index[p.1]))
  }

  /** The directions a report is about. */
  function Directions(r: Report): set<Pair> {
    if r.net == "e" then {(r.source, r.destination), (r.destination, r.source)}
    else if r.net == "o" then {(r.source, r.destination)}
    else {}
  }

  lemma FailTakesDown(st: LinkState, index: map<Label, nat>, p: Pair)
    requires Sound(st, index) && p.0 in index && p.1 in index && Joined(st.edges, index[p.0], index[p.1])
    ensures TakenDown(st, Fail(st, index, p), index, {p})
  {
    WithoutIsSimple(st.edges, index[p.0], index[p.1]);
    forall e ensures JoinsOne(index, {p}, e) <==> Joins(index, p, e) {
      if Joins(index, p, e) {
        assert p in {p};
      }
    }
  }

  lemma TakenDownTwice(st: LinkState, st1: LinkState, st2: LinkState, index: map<Label, nat>, p: Pair, q: Pair)
    requires TakenDown(st, st1, index, {p}) && TakenDown(st1, st2, index, {q}) && p != q
    ensures TakenDown(st, st2, index, {p, q})
  {
    hide Joined, JoinsOne;
    forall e ensures JoinsOne(index, {p, q}, e) <==> JoinsOne(index, {p}, e) || JoinsOne(index, {q}, e) {
      JoinsEither(index, p, q, e);
    }
    assert p in {p} && q in {q};
    FewerJoined(st1.edges, st2.edges);
    assert p !in {q} && q !in {p};
    assert st2.removed[p] == st1.removed[p];
  }

  lemma JoinsEither(index: map<Label, nat>, p: Pair, q: Pair, e: Edge)
    ensures JoinsOne(index, {p, q}, e) <==> JoinsOne(index, {p}, e) || JoinsOne(index, {q}, e)
  {
    assert p in {p} && p in {p, q} && q in {q} && q in {p, q};
  }

  lemma FewerJoined(edges: seq<Edge>, edges': seq<Edge>)
    requires forall e :: e in edges' ==> e in edges
    ensures forall u, v :: Joined(edges', u, v) ==> Joined(edges, u, v)
  {
  }

  /** A failure report about live links takes down exactly the directions it is about. */
  lemma DownReport(st: LinkState, index: map<Label, nat>, r: Report)
    requires Sound(st, index) && KnownLink(st, index, r) && !r.up
    requires forall p :: p in Directions(r) ==> p !in st.removed
    ensures TakenDown(st, Update(st, index, r), index, Directions(r))
  {
    hide Sound, Fail, TakenDown, Simple, Joined;
    var there, back := (r.source, r.destination), (r.destination, r.source);
    FailedIsNotLive(st, index);
    if r.net == "e" {
      assert there in Directions(r) && back in Directions(r);
      FailTakesDown(st, index, there);
      FailConserves(st, index, there);
      FailOther(st, index, there, back);
      FailTakesDown(Fail(st, index, there), index, back);
      TakenDownTwice(st, Fail(st, index, there), Fail(Fail(st, index, there), index, back), index, there, back);
    } else if r.net == "o" {
      assert there in Directions(r);
      FailTakesDown(st, index, there);
    } else {
      NothingDown(st, index);
    }
  }

  lemma NothingDown(st: LinkState, index: map<Label, nat>)
    ensures TakenDown(st, st, index, {}) && BroughtUp(st, st, index, {})
  {
  }

  lemma RestoreBringsUp(st: LinkState, index: map<Label, nat>, p: Pair)
    requires Sound(st, index) && p in st.removed
    ensures BroughtUp(st, Restore(st, index, p), index, {p})
  {
    RestoreConserves(st, index, p);
    var e := Edge(index[p.0], index[p.1], st.removed[p]);
    var st' := Restore(st, index, p);
    forall x ensures x in st'.edges <==> x in st.edges || exists q :: q in {p} && q in st.removed && Joins(index, q, x) && x.lid == st.removed[q] {
      assert x in st'.edges <==> x in st.edges || x == e;
      if x == e {
        assert p in {p} && Joins(index, p, x);
      }
    }
  }

  lemma BroughtUpTwice(st: LinkState, st1: LinkState, st2: LinkState, index: map<Label, nat>, p: Pair, q: Pair)
    requires BroughtUp(st, st1, index, {p}) && BroughtUp(st1, st2, index, {q}) && p != q && p in st.removed && q in st1.removed
    ensures BroughtUp(st, st2, index, {p, q})
  {
    var both := {p, q};
    forall e ensures e in st2.edges <==> e in st.edges || exists x :: x in both && x in st.removed && Joins(index, x, e) && e.lid == st.removed[x] {
      if x :| x in both && x in st.removed && Joins(index, x, e) && e.lid == st.removed[x] {
        if x == p {
          assert p in {p} && e in st1.edges;
        } else {
          assert q in {q} && q in st1.removed && st1.removed[q] == st.removed[q];
        }
      }
      if e in st2.edges && e !in st.edges {
        if e in st1.edges {
          assert p in both;
        } else {
          assert q in both && st1.removed[q] == st.removed[q];
        }
      }
    }
    assert p in {p} && q in {q};
    var x :| x in st1.edges && x.src == index[p.0] && x.dst == index[p.1];
    assert x in st2.edges;
  }

  /** A recovery report about a failed link brings up those of its directions that had failed. */
  lemma UpReport(st: LinkState, index: map<Label, nat>, r: Report)
    requires Sound(st, index) && KnownLink(st, index, r) && r.up && (r.source, r.destination) in st.removed
    ensures BroughtUp(st, Update(st, index, r), index,
                      set p: Pair | p in st.removed && (p == (r.source, r.destination) || p in Directions(r)))
  {
    hide Sound, Restore, BroughtUp, Simple, Joined;
    var there, back := (r.source, r.destination), (r.destination, r.source);
    RestoreBringsUp(st, index, there);
    var st1 := Restore(st, index, there);
    RestoreRemoved(st, index, there);
    var pairs := set p: Pair | p in st.removed && (p == there || p in Directions(r));
    if r.net == "e" && back in st1.removed {
      RestoreConserves(st, index, there);
      RestoreBringsUp(st1, index, back);
      BroughtUpTwice(st, st1, Restore(st1, index, back), index, there, back);
      assert pairs == {there, back};
    } else {
      assert pairs == {there};
    }
  }

  lemma RestoreRemoved(st: LinkState, index: map<Label, nat>, p: Pair)
    requires p in st.removed && p.0 in index && p.1 in index
    ensures Restore(st, index, p).removed == st.removed - {p}
  {
  }

  /** Every other report changes nothing: a recovery of a link that has not failed, a failure of one that has, or of an
      unknown kind of link. */
  lemma IdleReport(st: LinkState, index: map<Label, nat>, r: Report)
    requires Sound(st, index) && KnownLink(st, index, r)
    requires if r.up then (r.source, r.destination) !in st.removed else Directions(r) == {} || exists p :: p in Directions(r) && p in st.removed
    ensures Update(st, index, r) == st
  {
  }

  lemma FailedIsNotLive(st: LinkState, index: map<Label, nat>)
    requires Sound(st, index)
    ensures Injective(index)
    ensures forall p: Pair :: p in st.removed ==> p.0 in index && p.1 in index && !Joined(st.edges, index[p.0], index[p.1])
  {
  }

  lemma FailOther(st: LinkState, index: map<Label, nat>, p: Pair, q: Pair)
    requires p.0 in index && p.1 in index && q.0 in index && q.1 in index && Injective(index) && p != q
    requires Joined(st.edges, index[p.0], index[p.1]) && Joined(st.edges, index[q.0], index[q.1]) && q !in st.removed
    ensures Joined(Fail(st, index, p).edges, index[q.0], index[q.1]) && q !in Fail(st, index, p).removed
    ensures p in Fail(st, index, p).removed
  {
    StillJoined(st.edges, index[p.0], index[p.1], index[q.0], index[q.1]);
  }

  // ---------- whole runs ----------

  ghost predicate AllKnown(st: LinkState, index: map<Label, nat>, reports: seq<Report>) {
    forall i :: 0 <= i < |reports| ==> KnownLink(st, index, reports[i])
  }

  ghost function Run(st: LinkState, index: map<Label, nat>, reports: seq<Report>): LinkState
    requires Sound(st, index) && AllKnown(st, index, reports)
    decreases |reports|
  {
    if reports == [] then st
    else
      UpdateConserves(st, index, reports[0]);
      StillKnown(st, index, reports);
      Run(Update(st, index, reports[0]), index, reports[1..])
  }

  lemma StillKnown(st: LinkState, index: map<Label, nat>, reports: seq<Report>)
    requires Sound(st, index) && AllKnown(st, index, reports) && reports != []
    ensures AllKnown(Update(st, index, reports[0]), index, reports[1..])
  {
    hide Sound, Update, KnownPair;
    UpdateConserves(st, index, reports[0]);
    forall i | 0 <= i < |reports| - 1 ensures KnownLink(Update(st, index, reports[0]), index, reports[1..][i]) {
      assert reports[1..][i] == reports[i + 1];
    }
  }

  /** Over any run of reports about known links, no labelled link is ever lost, invented, or live and failed at once. */
  lemma {:induction false} RunConserves(st: LinkState, index: map<Label, nat>, reports: seq<Report>)
    requires Sound(st, index) && AllKnown(st, index, reports)
    ensures Sound(Run(st, index, reports), index) && AllLinks(Run(st, index, reports), index) == AllLinks(st, index)
    decreases |reports|
  {
    hide Sound, Update, KnownLink, AllLinks;
    if reports != [] {
      UpdateConserves(st, index, reports[0]);
      StillKnown(st, index, reports);
      RunConserves(Update(st, index, reports[0]), index, reports[1..]);
    }
  }

  /** A live link that fails and recovers is back, under the same identifier. */
  lemma FailThenRecover(st: LinkState, index: map<Label, nat>, r: Report)
    requires Sound(st, index) && KnownLink(st, index, r) && !r.up && (r.net == "e" || r.net == "o")
    requires (r.source, r.destination) !in st.removed && (r.net == "e" ==> (r.destination, r.source) !in st.removed)
    ensures Sound(Update(st, index, r), index) && KnownLink(Update(st, index, r), index, r.(up := true))
    ensures var st' := Update(Update(st, index, r), index, r.(up := true));
      LiveLinks(st') == LiveLinks(st) && st'.removed == st.removed
  {
    hide Sound, AllLinks, Simple, Joined, LiveLinks, Fail, Restore;
    var there, back := (r.source, r.destination), (r.destination, r.source);
    FailedIsNotLive(st, index);
    UpdateConserves(st, index, r);
    if r.net == "o" {
      OneBack(st, index, there);
    } else {
      FailOther(st, index, there, back);
      BothBack(st, index, there, back);
    }
  }

  lemma OneBack(st: LinkState, index: map<Label, nat>, p: Pair)
    requires Sound(st, index) && p.0 in index && p.1 in index && p !in st.removed && Joined(st.edges, index[p.0], index[p.1])
    ensures p in Fail(st, index, p).removed && Sound(Fail(st, index, p), index)
    ensures var st' := Restore(Fail(st, index, p), index, p);
      Sound(st', index) && LiveLinks(st') == LiveLinks(st) && st'.removed == st.removed
  {
    hide Sound, AllLinks, Joined, LiveLinks;
    FailConserves(st, index, p);
    RestoreConserves(Fail(st, index, p), index, p);
    EdgeBack(st, index, p);
    assert Fail(st, index, p).removed - {p} == st.removed;
  }

  lemma BothBack(st: LinkState, index: map<Label, nat>, p: Pair, q: Pair)
    requires Sound(st, index) && p.0 in index && p.1 in index && q.0 in index && q.1 in index && p != q
    requires p !in st.removed && q !in st.removed
    requires Joined(st.edges, index[p.0], index[p.1]) && Joined(st.edges, index[q.0], index[q.1])
    requires Joined(Fail(st, index, p).edges, index[q.0], index[q.1])
    ensures var st2 := Fail(Fail(st, index, p), index, q);
      && p in st2.removed && q in Restore(st2, index, p).removed
      && var st' := Restore(Restore(st2, index, p), index, q);
         LiveLinks(st') == LiveLinks(st) && st'.removed == st.removed
  {
    hide Sound, AllLinks, Joined, LiveLinks;
    FailConserves(st, index, p);
    var st1 := Fail(st, index, p);
    FailConserves(st1, index, q);
    var st2 := Fail(st1, index, q);
    RestoreConserves(st2, index, p);
    var st3 := Restore(st2, index, p);
    RestoreConserves(st3, index, q);
    EdgeBack(st, index, p);
    EdgeBack(st1, index, q);
    assert st3.removed - {q} == st.removed;
  }

  lemma EdgeBack(st: LinkState, index: map<Label, nat>, p: Pair)
    requires p.0 in index && p.1 in index && Joined(st.edges, index[p.0], index[p.1])
    ensures Edge(index[p.0], index[p.1], LidOf(st.edges, index[p.0], index[p.1])) in LiveLinks(st)
    ensures Fail(st, index, p).removed[p] == LidOf(st.edges, index[p.0], index[p.1])
  {
  }
}
