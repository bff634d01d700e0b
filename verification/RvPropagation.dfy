/**
 Handing identifiers down the graph after a node has gained a father.  One node is updated from its
 fathers at a time; nothing but missing identifiers with no publishers and no subscribers is ever added.
 */
module RvPropagation {
  import opened RvGraph

  // ---------- one node ----------

  ghost function Missing(st: Rv, r: Ref): set<Id>
    requires r in st.nodes
  {
    set f, id | f in st.nodes[r].fathers && f in st.nodes && id in st.nodes[f].ids
      && id + [st.nodes[r].name] !in st.nodes[r].ids :: id + [st.nodes[r].name]
  }

  function Spread<T>(s: set<Id>, v: T): map<Id, T> {
    map id | id in s :: v
  }

  function WithIds(n: Node, s: set<Id>): Node {
    n.(ids := n.ids + Spread(s, NoHosts))
  }

  /** r carries the additional identifiers s, and they are indexed. */
  function AddIds(st: Rv, r: Ref, s: set<Id>): Rv
    requires r in st.nodes
  {
    var nodes := st.nodes[r := WithIds(st.nodes[r], s)];
    if st.nodes[r].Scope? then st.(nodes := nodes, scopeIndex := st.scopeIndex + Spread(s, r))
    else st.(nodes := nodes, pubIndex := st.pubIndex + Spread(s, r))
  }

  ghost predicate SameNode(n: Node, n': Node) {
    && n.name == n'.name && n.strategy == n'.strategy && n.fathers == n'.fathers
    && n.Scope? == n'.Scope?
    && (n.Scope? ==> n.children == n'.children && n.items == n'.items)
  }

  /** Only identifiers without hosts have been added. */
  ghost predicate NodeGrows(n: Node, n': Node) {
    && SameNode(n, n')
    && (forall id :: id in n.ids ==> id in n'.ids && n'.ids[id] == n.ids[id])
    && (forall id :: id in n'.ids && id !in n.ids ==> n'.ids[id] == NoHosts)
  }

  ghost predicate Grows(st: Rv, st': Rv) {
    && st.nodes.Keys == st'.nodes.Keys
    && st.hosts == st'.hosts
    && forall r :: r in st.nodes ==> NodeGrows(st.nodes[r], st'.nodes[r])
  }

  lemma GrowsTransitive(st0: Rv, st1: Rv, st2: Rv)
    requires Grows(st0, st1) && Grows(st1, st2)
    ensures Grows(st0, st2)
  {
    forall r | r in st0.nodes ensures NodeGrows(st0.nodes[r], st2.nodes[r]) {
      assert r in st1.nodes;
      assert NodeGrows(st0.nodes[r], st1.nodes[r]) && NodeGrows(st1.nodes[r], st2.nodes[r]);
    }
  }

  /** An identifier r is due but does not carry is carried by no other node. */
  lemma MissingIsNew(st: Rv, r: Ref, id: Id)
    requires Graph(st) && r in st.nodes && id in Missing(st, r)
    ensures id !in st.scopeIndex && id !in st.pubIndex
    ensures id != [] && |id| >= 2 && Last(id) == st.nodes[r].name && FromFather(st, r, Front(id))
  {
    hide Graph, FromFather;
    var f, front :| f in st.nodes[r].fathers && f in st.nodes && front in st.nodes[f].ids
      && front + [st.nodes[r].name] == id && id !in st.nodes[r].ids;
    FrontLast(front, st.nodes[r].name);
    MissingFront(st, r, f, front);
    if id in st.scopeIndex || id in st.pubIndex {
      var q := IndexedNode(st, id);
      MissingClash(st, r, q, f, front);
    }
  }

  lemma MissingFront(st: Rv, r: Ref, f: Ref, front: Id)
    requires Graph(st) && r in st.nodes && f in st.nodes[r].fathers && f in st.nodes && front in st.nodes[f].ids
    ensures front != [] && FromFather(st, r, front)
  {
    assert Sound(st, f);
  }

  lemma MissingClash(st: Rv, r: Ref, q: Ref, f: Ref, front: Id)
    requires Graph(st) && r in st.nodes && f in st.nodes[r].fathers && f in st.nodes && front in st.nodes[f].ids && front != []
    requires q in st.nodes && front + [st.nodes[r].name] in st.nodes[q].ids
    ensures q == r
  {
    hide Links, Siblings;
    var id := front + [st.nodes[r].name];
    FrontLast(front, st.nodes[r].name);
    var f' := FatherOfId(st, q, id);
    assert Owner(st, front, f);
    assert f' == f by { ScopeOfFather(st, r, f); }
    SameNameSameNode(st, r, q, f, id);
  }

  lemma ScopeOfFather(st: Rv, r: Ref, f: Ref)
    requires Links(st) && r in st.nodes && f in st.nodes[r].fathers
    ensures FatherLink(st, r, f)
  {
    assert NodeLinks(st, r);
  }

  lemma SameNameSameNode(st: Rv, r: Ref, q: Ref, f: Ref, id: Id)
    requires AllSound(st) && Siblings(st) && r in st.nodes && q in st.nodes
    requires f in st.nodes[r].fathers && f in st.nodes[q].fathers
    requires id != [] && Last(id) == st.nodes[r].name && id in st.nodes[q].ids
    ensures q == r
  {
    assert Sound(st, q);
  }

  lemma AddIdsGrows(st: Rv, r: Ref, s: set<Id>)
    requires r in st.nodes && s !! st.nodes[r].ids.Keys
    ensures Grows(st, AddIds(st, r, s))
  {
    var st' := AddIds(st, r, s);
    assert st'.nodes.Keys == st.nodes.Keys;
    forall q | q in st.nodes ensures NodeGrows(st.nodes[q], st'.nodes[q]) {
    }
  }

  lemma GrowsKeepsShape(st: Rv, st': Rv)
    requires Grows(st, st')
    ensures Links(st) ==> Links(st')
    ensures Siblings(st) ==> Siblings(st')
  {
    assert forall r :: r in st'.nodes ==> r in st.nodes && SameNode(st.nodes[r], st'.nodes[r]);
    if Siblings(st) {
      forall r, q, f | r in st'.nodes && q in st'.nodes && r != q && f in st'.nodes[r].fathers && f in st'.nodes[q].fathers
        ensures st'.nodes[r].name != st'.nodes[q].name
      {
        assert r in st.nodes && q in st.nodes && f in st.nodes[r].fathers && f in st.nodes[q].fathers;
      }
    }
    if Links(st) {
      LinksSameShape(st, st');
    }
  }

  lemma LinksSameShape(st: Rv, st': Rv)
    requires Links(st) && st.nodes.Keys == st'.nodes.Keys
    requires forall r :: r in st.nodes ==> SameNode(st.nodes[r], st'.nodes[r])
    ensures Links(st')
  {
    forall r | r in st'.nodes ensures NodeLinks(st', r) {
      assert r in st.nodes && NodeLinks(st, r);
      forall f | f in st'.nodes[r].fathers ensures FatherLink(st', r, f) {
        assert FatherLink(st, r, f) && f in st'.nodes;
      }
    }
  }

  lemma AddIdsIndexed(st: Rv, r: Ref, s: set<Id>)
    requires Indexed(st) && r in st.nodes
    requires forall id :: id in s ==> id !in st.scopeIndex && id !in st.pubIndex
    ensures Indexed(AddIds(st, r, s))
  {
    var st' := AddIds(st, r, s);
    forall q, id | q in st'.nodes && id in st'.nodes[q].ids ensures Owner(st', id, q) {
      assert q in st.nodes;
      if id in st.nodes[q].ids {
        assert Owner(st, id, q);
      }
    }
  }

  lemma AddIdsSound(st: Rv, r: Ref, s: set<Id>)
    requires AllSound(st) && r in st.nodes
    requires forall id :: id in s ==> |id| >= 2 && Last(id) == st.nodes[r].name && FromFather(st, r, Front(id))
    ensures AllSound(AddIds(st, r, s))
  {
    var st' := AddIds(st, r, s);
    forall q | q in st'.nodes ensures Sound(st', q) {
      assert q in st.nodes && Sound(st, q);
      forall id | id in st'.nodes[q].ids
        ensures id != [] && Last(id) == st'.nodes[q].name
        ensures if st'.nodes[q].fathers == {} then |id| == 1 else |id| >= 2 && FromFather(st', q, Front(id))
      {
        if id in st.nodes[q].ids {
          if st.nodes[q].fathers != {} {
            FromFatherGrows(st, st', r, s, q, Front(id));
          }
        } else {
          FromFatherGrows(st, st', r, s, q, Front(id));
        }
      }
    }
  }

  lemma FromFatherGrows(st: Rv, st': Rv, r: Ref, s: set<Id>, q: Ref, id: Id)
    requires r in st.nodes && st' == AddIds(st, r, s) && q in st.nodes && FromFather(st, q, id)
    ensures FromFather(st', q, id)
    ensures st.nodes[q].fathers != {}
  {
    var f :| f in st.nodes[q].fathers && f in st.nodes && id in st.nodes[f].ids;
    assert f in st'.nodes && id in st'.nodes[f].ids;
  }

  /** Adding due identifiers keeps the graph sound and correctly indexed. */
  lemma AddIdsKeepsGraph(st: Rv, r: Ref, s: set<Id>)
    requires Graph(st) && r in st.nodes && s <= Missing(st, r)
    ensures Graph(AddIds(st, r, s)) && Grows(st, AddIds(st, r, s))
  {
    hide Links, AllSound, Indexed, Siblings, AddIds, Grows, FromFather;
    forall id | id in s
      ensures id !in st.scopeIndex && id !in st.pubIndex
      ensures |id| >= 2 && Last(id) == st.nodes[r].name && FromFather(st, r, Front(id))
    {
      MissingIsNew(st, r, id);
    }
    AddIdsGrows(st, r, s);
    GrowsKeepsShape(st, AddIds(st, r, s));
    AddIdsIndexed(st, r, s);
    AddIdsSound(st, r, s);
  }

  /** Adding all of them completes r and can only unsettle its own children. */
  lemma AddIdsCompletes(st: Rv, r: Ref)
    requires r in st.nodes && st.nodes[r].fathers != {} && r !in st.nodes[r].fathers
    ensures Complete(AddIds(st, r, Missing(st, r)), r)
    ensures forall n :: n in st.nodes && n != r && r !in st.nodes[n].fathers && Complete(st, n) ==>
      Complete(AddIds(st, r, Missing(st, r)), n)
  {
    var st' := AddIds(st, r, Missing(st, r));
    forall f, id | f in st'.nodes[r].fathers && f in st'.nodes && id in st'.nodes[f].ids ensures Extends(st', r, id) {
      assert f in st.nodes && id in st.nodes[f].ids;
      if id + [st.nodes[r].name] !in st.nodes[r].ids {
        assert id + [st.nodes[r].name] in Missing(st, r);
      }
    }
    forall n | n in st.nodes && n != r && r !in st.nodes[n].fathers && Complete(st, n) ensures Complete(st', n) {
      forall f, id | f in st'.nodes[n].fathers && f in st'.nodes && id in st'.nodes[f].ids ensures Extends(st', n, id) {
        assert f != r;
        assert f in st.nodes && id in st.nodes[f].ids;
        assert Extends(st, n, id);
      }
    }
  }

  // ---------- a node and everything below it ----------

  /** The outcome of updating r and all its descendants, in whatever order and however often. */
  ghost predicate Propagated(st: Rv, st': Rv, r: Ref) {
    Graph(st') && Grows(st, st') && forall n :: n in st.nodes && (n == r || Complete(st, n)) ==> Complete(st', n)
  }

  /** A depth that grows along every father link: no cycles. */
  ghost predicate Ranked(st: Rv, depth: map<Ref, nat>, bound: nat) {
    && (forall r :: r in st.nodes ==> r in depth && depth[r] <= bound)
    && (forall r, f :: r in st.nodes && f in st.nodes[r].fathers ==> f in depth && depth[f] < depth[r])
  }

  lemma RankedGrows(st: Rv, st': Rv, depth: map<Ref, nat>, bound: nat)
    requires Ranked(st, depth, bound) && Grows(st, st')
    ensures Ranked(st', depth, bound)
  {
    assert forall r :: r in st'.nodes ==> r in st.nodes && SameNode(st.nodes[r], st'.nodes[r]);
  }

  /** Half-way through: all nodes that were complete, and r, are complete except those still to be visited. */
  ghost predicate Visiting(st: Rv, st': Rv, r: Ref, todo: set<Ref>) {
    && Graph(st') && Grows(st, st')
    && forall n :: n in st.nodes && (n == r || Complete(st, n)) && n !in todo ==> Complete(st', n)
  }

  lemma VisitingStarts(st: Rv, r: Ref)
    requires Graph(st) && r in st.nodes && st.nodes[r].fathers != {} && r !in st.nodes[r].fathers
    ensures Visiting(st, AddIds(st, r, Missing(st, r)), r,
                     if st.nodes[r].Scope? then st.nodes[r].children + st.nodes[r].items else {})
  {
    hide AllSound, Indexed, Siblings, Complete, AddIds, Grows;
    AddIdsKeepsGraph(st, r, Missing(st, r));
    AddIdsCompletes(st, r);
    forall n | n in st.nodes && r in st.nodes[n].fathers
      ensures st.nodes[r].Scope? && n in st.nodes[r].children + st.nodes[r].items
    {
      ScopeOfFather(st, n, r);
    }
  }

  lemma VisitingStep(st: Rv, st1: Rv, st2: Rv, r: Ref, todo: set<Ref>, c: Ref)
    requires Visiting(st, st1, r, todo) && Propagated(st1, st2, c) && c in st.nodes
    ensures Visiting(st, st2, r, todo - {c})
  {
    hide Graph, Complete, NodeGrows;
    GrowsTransitive(st, st1, st2);
  }

  lemma VisitingEnds(st: Rv, st': Rv, r: Ref)
    requires Visiting(st, st', r, {})
    ensures Propagated(st, st', r)
  {
    hide Graph, Complete, Grows;
  }

  // ---------- linking an existing scope below another father ----------

  function WithFathers(n: Node, fathers: set<Ref>): Node {
    n.(fathers := fathers)
  }

  function WithChild(n: Node, r: Ref): Node
    requires n.Scope?
  {
    n.(children := n.children + {r})
  }

  function WithItem(n: Node, r: Ref): Node
    requires n.Scope?
  {
    n.(items := n.items + {r})
  }

  /** r becomes a child scope or an item of f, with no identifiers handed down yet. */
  function Link(st: Rv, f: Ref, r: Ref): Rv
    requires f in st.nodes && r in st.nodes && st.nodes[f].Scope?
  {
    var n := WithFathers(st.nodes[r], st.nodes[r].fathers + {f});
    var father := if n.Scope? then WithChild(st.nodes[f], r) else WithItem(st.nodes[f], r);
    st.(nodes := st.nodes[r := n][f := father])
  }

  /** If prefix + [x] is free below one identifier of f, no child of f at all is called x. */
  lemma NameIsFree(st: Rv, f: Ref, prefix: Id, x: Fragment)
    requires Inv(st) && f in st.nodes && prefix in st.nodes[f].ids
    requires prefix + [x] !in st.scopeIndex && prefix + [x] !in st.pubIndex
    ensures forall n :: n in st.nodes && f in st.nodes[n].fathers ==> st.nodes[n].name != x
  {
    hide Links, AllSound, Siblings;
    forall n | n in st.nodes && f in st.nodes[n].fathers ensures st.nodes[n].name != x {
      assert Complete(st, n);
      assert Extends(st, n, prefix);
      assert Owner(st, prefix + [st.nodes[n].name], n);
    }
  }

  /** What linking changes: the fathers of r and the children of f. */
  lemma LinkShape(st: Rv, f: Ref, r: Ref, n: Ref)
    requires f in st.nodes && r in st.nodes && f != r && st.nodes[f].Scope?
    ensures n in st.nodes <==> n in Link(st, f, r).nodes
    ensures n in st.nodes ==>
      var m := Link(st, f, r).nodes[n];
      && m.ids == st.nodes[n].ids && m.name == st.nodes[n].name && m.Scope? == st.nodes[n].Scope?
      && m.strategy == st.nodes[n].strategy
      && m.fathers == (if n == r then st.nodes[n].fathers + {f} else st.nodes[n].fathers)
      && (m.Scope? ==> m.children == if n == f && st.nodes[r].Scope? then st.nodes[n].children + {r} else st.nodes[n].children)
      && (m.Scope? ==> m.items == if n == f && st.nodes[r].Item? then st.nodes[n].items + {r} else st.nodes[n].items)
    ensures Link(st, f, r).scopeIndex == st.scopeIndex && Link(st, f, r).pubIndex == st.pubIndex
    ensures Link(st, f, r).hosts == st.hosts
  {
  }

  lemma LinkLinks(st: Rv, f: Ref, r: Ref)
    requires Links(st) && f in st.nodes && r in st.nodes && f != r && st.nodes[f].Scope?
    ensures Links(Link(st, f, r))
  {
    var st' := Link(st, f, r);
    hide Link;
    forall n | n in st'.nodes ensures NodeLinks(st', n) {
      LinkShape(st, f, r, n);
      assert NodeLinks(st, n);
      forall g | g in st'.nodes[n].fathers ensures FatherLink(st', n, g) {
        LinkShape(st, f, r, g);
        assert g == f || FatherLink(st, n, g);
      }
      if st'.nodes[n].Scope? {
        forall c | c in st'.nodes[n].children ensures c in st'.nodes && st'.nodes[c].Scope? && n in st'.nodes[c].fathers {
          LinkShape(st, f, r, c);
        }
        forall c | c in st'.nodes[n].items ensures c in st'.nodes && st'.nodes[c].Item? && n in st'.nodes[c].fathers {
          LinkShape(st, f, r, c);
        }
      }
    }
  }

  /** st' has the nodes of st with the same identifiers, and r has the additional father f. */
  ghost predicate OnlyLinked(st: Rv, st': Rv, f: Ref, r: Ref) {
    && st'.hosts == st.hosts && st'.scopeIndex == st.scopeIndex && st'.pubIndex == st.pubIndex
    && st'.nodes.Keys == st.nodes.Keys
    && forall n {:trigger LinkedNode(st, st', f, r, n)} :: n in st.nodes ==> LinkedNode(st, st', f, r, n)
  }

  ghost predicate LinkedNode(st: Rv, st': Rv, f: Ref, r: Ref, n: Ref)
    requires n in st.nodes && n in st'.nodes
  {
    && st'.nodes[n].ids == st.nodes[n].ids && st'.nodes[n].name == st.nodes[n].name
    && st'.nodes[n].Scope? == st.nodes[n].Scope? && st'.nodes[n].strategy == st.nodes[n].strategy
    && st'.nodes[n].fathers == if n == r then st.nodes[n].fathers + {f} else st.nodes[n].fathers
  }

  lemma LinkIsOnlyLinked(st: Rv, f: Ref, r: Ref)
    requires f in st.nodes && r in st.nodes && f != r && st.nodes[f].Scope?
    ensures OnlyLinked(st, Link(st, f, r), f, r)
  {
    assert Link(st, f, r).nodes.Keys == st.nodes.Keys;
    forall n | n in st.nodes ensures LinkedNode(st, Link(st, f, r), f, r, n) {
      LinkShape(st, f, r, n);
    }
    LinkShape(st, f, r, r);
  }

  lemma LinkedIndexed(st: Rv, st': Rv, f: Ref, r: Ref)
    requires Indexed(st) && OnlyLinked(st, st', f, r)
    ensures Indexed(st')
  {
    forall q, id | q in st'.nodes && id in st'.nodes[q].ids ensures Owner(st', id, q) {
      assert LinkedNode(st, st', f, r, q);
      assert Owner(st, id, q);
    }
    forall id | id in st'.scopeIndex
      ensures st'.scopeIndex[id] in st'.nodes && st'.nodes[st'.scopeIndex[id]].Scope? && id in st'.nodes[st'.scopeIndex[id]].ids
    {
      assert LinkedNode(st, st', f, r, st.scopeIndex[id]);
    }
    forall id | id in st'.pubIndex
      ensures st'.pubIndex[id] in st'.nodes && st'.nodes[st'.pubIndex[id]].Item? && id in st'.nodes[st'.pubIndex[id]].ids
    {
      assert LinkedNode(st, st', f, r, st.pubIndex[id]);
    }
  }

  lemma LinkedSiblings(st: Rv, st': Rv, f: Ref, r: Ref)
    requires Siblings(st) && r in st.nodes && OnlyLinked(st, st', f, r)
    requires forall n :: n in st.nodes && f in st.nodes[n].fathers ==> st.nodes[n].name != st.nodes[r].name
    ensures Siblings(st')
  {
    forall p, q, g | p in st'.nodes && q in st'.nodes && p != q && g in st'.nodes[p].fathers && g in st'.nodes[q].fathers
      ensures st'.nodes[p].name != st'.nodes[q].name
    {
      assert LinkedNode(st, st', f, r, p) && LinkedNode(st, st', f, r, q);
    }
  }

  lemma LinkedSound(st: Rv, st': Rv, f: Ref, r: Ref)
    requires AllSound(st) && r in st.nodes && st.nodes[r].fathers != {} && OnlyLinked(st, st', f, r)
    ensures AllSound(st')
  {
    forall n | n in st'.nodes ensures Sound(st', n) {
      assert LinkedNode(st, st', f, r, n);
      assert Sound(st, n);
      forall id | id in st'.nodes[n].ids && st.nodes[n].fathers != {} ensures FromFather(st', n, Front(id)) {
        var g :| g in st.nodes[n].fathers && g in st.nodes && Front(id) in st.nodes[g].ids;
        assert LinkedNode(st, st', f, r, g);
      }
    }
  }

  lemma LinkedComplete(st: Rv, st': Rv, f: Ref, r: Ref, n: Ref)
    requires n in st.nodes && Complete(st, n) && n != r && OnlyLinked(st, st', f, r)
    ensures Complete(st', n)
  {
    assert LinkedNode(st, st', f, r, n);
    forall g, id | g in st'.nodes[n].fathers && g in st'.nodes && id in st'.nodes[g].ids ensures Extends(st', n, id) {
      assert LinkedNode(st, st', f, r, g);
      assert Extends(st, n, id);
    }
  }

  /** A new father link to a sibling-free place unsettles nothing but the node itself. */
  lemma LinkKeepsGraph(st: Rv, f: Ref, r: Ref)
    requires Inv(st) && f in st.nodes && r in st.nodes && f != r && st.nodes[f].Scope?
    requires st.nodes[r].fathers != {}
    requires forall n :: n in st.nodes && f in st.nodes[n].fathers ==> st.nodes[n].name != st.nodes[r].name
    ensures Graph(Link(st, f, r))
    ensures forall n :: n in st.nodes && n != r ==> Complete(Link(st, f, r), n)
    ensures forall n :: n in st.nodes ==> n in Link(st, f, r).nodes && Link(st, f, r).nodes[n].ids == st.nodes[n].ids
  {
    hide Link, Links, AllSound, Indexed, Siblings, Complete;
    var st' := Link(st, f, r);
    LinkIsOnlyLinked(st, f, r);
    LinkLinks(st, f, r);
    LinkedIndexed(st, st', f, r);
    LinkedSiblings(st, st', f, r);
    LinkedSound(st, st', f, r);
    forall n | n in st.nodes
      ensures st'.nodes[n].ids == st.nodes[n].ids
      ensures n != r ==> Complete(st', n)
    {
      assert LinkedNode(st, st', f, r, n);
      if n != r {
        LinkedComplete(st, st', f, r, n);
      }
    }
  }

  /** No identifier of r is a prefix of one of f: r is neither f nor above it. */
  ghost predicate NotAbove(st: Rv, r: Ref, f: Ref)
    requires r in st.nodes && f in st.nodes
  {
    forall id, fid :: id in st.nodes[r].ids && fid in st.nodes[f].ids ==> !(id <= fid)
  }

  /** x carries an identifier that starts with one of r's. */
  ghost predicate Below(st: Rv, r: Ref, x: Ref)
    requires r in st.nodes && x in st.nodes
  {
    exists id, xid :: id in st.nodes[r].ids && xid in st.nodes[x].ids && id <= xid
  }

  lemma BelowIsClosed(st: Rv, r: Ref, f: Ref, x: Ref)
    requires AllComplete(st) && r in st.nodes && f in st.nodes && x in st.nodes && f in st.nodes[x].fathers && Below(st, r, f)
    ensures Below(st, r, x)
  {
    var id, fid :| id in st.nodes[r].ids && fid in st.nodes[f].ids && id <= fid;
    assert Complete(st, x) && Extends(st, x, fid);
    assert id <= fid + [st.nodes[x].name];
  }

  /** With the new link the graph is still acyclic, so propagation below r ends. */
  lemma LinkKeepsRank(st: Rv, f: Ref, r: Ref) returns (depth: map<Ref, nat>, bound: nat)
    requires Inv(st) && f in st.nodes && r in st.nodes && f != r && st.nodes[f].Scope?
    requires NotAbove(st, r, f)
    ensures Ranked(Link(st, f, r), depth, bound)
  {
    hide AllSound, Indexed, Siblings, MaxLen, AllComplete, Below;
    assert !Below(st, r, f) by { NotBelow(st, r, f); }
    var k := Depth(st, f) + 1;
    depth := map x | x in st.nodes :: if Below(st, r, x) then Depth(st, x) + k else Depth(st, x);
    bound := BoundOf(depth);
    var st' := Link(st, f, r);
    forall x, g | x in st'.nodes && g in st'.nodes[x].fathers ensures g in depth && depth[g] < depth[x] {
      if x == r && g == f {
        SelfBelow(st, r);
      } else {
        ScopeOfFather(st, x, g);
        FatherIsShallower(st, g, x);
        if Below(st, r, g) {
          BelowIsClosed(st, r, g, x);
        }
      }
    }
  }

  lemma NotBelow(st: Rv, r: Ref, f: Ref)
    requires r in st.nodes && f in st.nodes
    ensures NotAbove(st, r, f) <==> !Below(st, r, f)
  {
  }

  lemma SelfBelow(st: Rv, r: Ref)
    requires AllComplete(st) && r in st.nodes
    ensures Below(st, r, r)
  {
    assert Complete(st, r);
    assert st.nodes[r].ids.Keys != {};
    var id :| id in st.nodes[r].ids;
    assert id <= id;
  }

  lemma {:induction false} BoundOf(m: map<Ref, nat>) returns (bound: nat)
    ensures forall x :: x in m ==> m[x] <= bound
    decreases |m|
  {
    if m == map[] {
      bound := 0;
    } else {
      var x :| x in m;
      var b := BoundOf(m - {x});
      bound := if m[x] > b then m[x] else b;
      forall y | y in m ensures m[y] <= bound {
        assert y == x || y in m - {x};
      }
    }
  }

  /** Between requests the depth of an identifier ranks the graph. */
  lemma InvIsRanked(st: Rv) returns (depth: map<Ref, nat>, bound: nat)
    requires Inv(st)
    ensures Ranked(st, depth, bound)
  {
    hide AllSound, Indexed, Siblings, AllComplete, MaxLen, Depth;
    depth := map x | x in st.nodes :: Depth(st, x);
    bound := BoundOf(depth);
    forall r, f | r in st.nodes && f in st.nodes[r].fathers ensures f in depth && depth[f] < depth[r] {
      ScopeOfFather(st, r, f);
      FatherIsShallower(st, f, r);
    }
  }

  lemma {:induction false} PrefixNotDeeper(st: Rv, st': Rv, r: Ref, f: Ref, id: Id, fid: Id)
    requires Graph(st) && r in st.nodes && f in st.nodes && id in st.nodes[r].ids && fid in st.nodes[f].ids && id <= fid
    requires AllComplete(st') && st'.nodes.Keys == st.nodes.Keys
    requires forall x :: x in st.nodes ==> st.nodes[x].fathers <= st'.nodes[x].fathers
    ensures Depth(st', r) <= Depth(st', f)
    decreases |fid|
  {
    hide AllComplete, Depth, Graph;
    IdNotEmpty(st, r, id);
    if |id| == |fid| {
      assert id == fid;
      OneOwner(st, r, f, id);
    } else {
      var g := FatherOfId(st, f, fid);
      PrefixNotDeeper(st, st', r, g, id, Front(fid));
      assert g in st'.nodes;
      FatherIsShallower(st', g, f);
    }
  }

  lemma IdNotEmpty(st: Rv, r: Ref, id: Id)
    requires Graph(st) && r in st.nodes && id in st.nodes[r].ids
    ensures id != []
  {
    assert Sound(st, r);
  }

  lemma OneOwner(st: Rv, r: Ref, q: Ref, id: Id)
    requires Graph(st) && r in st.nodes && q in st.nodes && id in st.nodes[r].ids && id in st.nodes[q].ids
    ensures r == q
  {
    hide Links, AllSound, Siblings;
    assert Owner(st, id, r) && Owner(st, id, q);
  }

  /**
   The converse: if r is f or above f, no finite sets of identifiers settle the graph with the new
   link, so propagation cannot end.
   */
  lemma CyclicLinkNeverSettles(st: Rv, f: Ref, r: Ref, st': Rv)
    requires Graph(st) && f in st.nodes && r in st.nodes && !NotAbove(st, r, f)
    requires st'.nodes.Keys == st.nodes.Keys && f in st'.nodes[r].fathers
    requires forall x :: x in st.nodes ==> st.nodes[x].fathers <= st'.nodes[x].fathers
    ensures !AllComplete(st')
  {
    if AllComplete(st') {
      var id, fid :| id in st.nodes[r].ids && fid in st.nodes[f].ids && id <= fid;
      PrefixNotDeeper(st, st', r, f, id, fid);
      assert f in st'.nodes;
      FatherIsShallower(st', f, r);
    }
  }

  /** Once every node is complete again the identifiers are determined: order cannot matter. */
  lemma {:induction false} SettledIdsUnique(st1: Rv, st2: Rv, id: Id, r: Ref)
    requires Graph(st1) && AllComplete(st2) && st1.nodes.Keys == st2.nodes.Keys
    requires forall x :: x in st1.nodes ==> st1.nodes[x].name == st2.nodes[x].name && st1.nodes[x].fathers == st2.nodes[x].fathers
    requires r in st1.nodes && id in st1.nodes[r].ids
    ensures id in st2.nodes[r].ids
    decreases |id|
  {
    hide Links, Indexed, Siblings;
    assert Sound(st1, r) && Complete(st2, r);
    FrontLast(id, st1.nodes[r].name);
    if st1.nodes[r].fathers == {} {
      assert id == [st1.nodes[r].name];
    } else {
      var f :| f in st1.nodes[r].fathers && f in st1.nodes && Front(id) in st1.nodes[f].ids;
      SettledIdsUnique(st1, st2, Front(id), f);
      assert f in st2.nodes[r].fathers && f in st2.nodes;
      assert Extends(st2, r, Front(id));
    }
  }

  /** Gaining a father and propagating restores the invariant. */
  lemma PropagationRestores(st1: Rv, st2: Rv, r: Ref)
    requires Graph(st1) && r in st1.nodes && Propagated(st1, st2, r)
    requires forall n :: n in st1.nodes ==> n == r || Complete(st1, n)
    requires forall n :: n in st1.nodes ==> st1.nodes[n].ids != map[]
    ensures Inv(st2)
  {
    hide Graph, Complete;
    forall n | n in st2.nodes ensures Complete(st2, n) && st2.nodes[n].ids != map[] {
      assert n in st1.nodes && NodeGrows(st1.nodes[n], st2.nodes[n]);
      assert st1.nodes[n].ids.Keys != {};
      var id :| id in st1.nodes[n].ids;
      assert id in st2.nodes[n].ids;
    }
  }
}
