/**
 The information graph of a rendezvous node: scopes and information items that live in a store and
 refer to each other by reference, two indexes from full identifiers to nodes, and the
 published/subscribed sets kept for every host.  A full identifier is a sequence of fragments.
 */
module RvGraph {

  type Fragment = nat
  type Id = seq<Fragment>
  type Host = nat
  type Ref = nat

  datatype HostPair = HostPair(pubs: set<Host>, subs: set<Host>)

  /** Dissemination strategies. */
  const NODE_LOCAL: nat := 0
  const LINK_LOCAL: nat := 1
  const DOMAIN_LOCAL: nat := 2
  const IMPLICIT_RENDEZVOUS: nat := 3
  const BROADCAST_IF: nat := 4

  const NoHosts := HostPair({}, {})

  /** name is the last fragment all identifiers of the node share. */
  datatype Node =
    | Scope(name: Fragment, strategy: nat, ids: map<Id, HostPair>, fathers: set<Ref>, children: set<Ref>, items: set<Ref>)
    | Item(name: Fragment, strategy: nat, ids: map<Id, HostPair>, fathers: set<Ref>)

  datatype HostRecord = HostRecord(pubScopes: set<Id>, pubItems: set<Id>, subScopes: set<Id>, subItems: set<Id>)

  datatype Rv = Rv(nodes: map<Ref, Node>, scopeIndex: map<Id, Ref>, pubIndex: map<Id, Ref>, hosts: map<Host, HostRecord>)

  function Front(id: Id): Id
    requires id != []
  {
    id[..|id| - 1]
  }

  function Last(id: Id): Fragment
    requires id != []
  {
    id[|id| - 1]
  }

  lemma FrontLast(id: Id, x: Fragment)
    ensures Front(id + [x]) == id && Last(id + [x]) == x
    ensures id != [] ==> Front(id) + [Last(id)] == id
  {
  }

  // ---------- structure ----------

  /** Father and child links of r agree, and connect scopes to scopes or scopes to items. */
  ghost predicate NodeLinks(st: Rv, r: Ref)
    requires r in st.nodes
  {
    && (forall f :: f in st.nodes[r].fathers ==> FatherLink(st, r, f))
    && (st.nodes[r].Item? ==> st.nodes[r].fathers != {})
    && (st.nodes[r].Scope? ==>
          && (forall c :: c in st.nodes[r].children ==> c in st.nodes && st.nodes[c].Scope? && r in st.nodes[c].fathers)
          && (forall c :: c in st.nodes[r].items ==> c in st.nodes && st.nodes[c].Item? && r in st.nodes[c].fathers))
  }

  ghost predicate FatherLink(st: Rv, r: Ref, f: Ref)
    requires r in st.nodes
  {
    && f in st.nodes && st.nodes[f].Scope?
    && (if st.nodes[r].Scope? then r in st.nodes[f].children else r in st.nodes[f].items)
  }

  ghost predicate Links(st: Rv) {
    forall r {:trigger NodeLinks(st, r)} :: r in st.nodes ==> NodeLinks(st, r)
  }

  /** Every identifier of r extends an identifier of some father by r's name; a root has its name alone. */
  ghost predicate Sound(st: Rv, r: Ref)
    requires r in st.nodes
  {
    forall id :: id in st.nodes[r].ids ==>
      && id != [] && Last(id) == st.nodes[r].name
      && (if st.nodes[r].fathers == {} then |id| == 1 else |id| >= 2 && FromFather(st, r, Front(id)))
  }

  ghost predicate FromFather(st: Rv, r: Ref, id: Id)
    requires r in st.nodes
  {
    exists f :: f in st.nodes[r].fathers && f in st.nodes && id in st.nodes[f].ids
  }

  /** r carries an identifier for every identifier of every father. */
  ghost predicate Complete(st: Rv, r: Ref)
    requires r in st.nodes
  {
    && (st.nodes[r].fathers == {} ==> [st.nodes[r].name] in st.nodes[r].ids)
    && (forall f, id :: f in st.nodes[r].fathers && f in st.nodes && id in st.nodes[f].ids ==>
          Extends(st, r, id))
  }

  ghost predicate Extends(st: Rv, r: Ref, id: Id)
    requires r in st.nodes
  {
    id + [st.nodes[r].name] in st.nodes[r].ids
  }

  /** The two indexes list exactly the identifiers the nodes carry, and never both the same one. */
  ghost predicate Indexed(st: Rv) {
    && (forall id :: id in st.scopeIndex ==>
          st.scopeIndex[id] in st.nodes && st.nodes[st.scopeIndex[id]].Scope? && id in st.nodes[st.scopeIndex[id]].ids)
    && (forall id :: id in st.pubIndex ==>
          st.pubIndex[id] in st.nodes && st.nodes[st.pubIndex[id]].Item? && id in st.nodes[st.pubIndex[id]].ids)
    && (forall r, id :: r in st.nodes && id in st.nodes[r].ids ==> Owner(st, id, r))
    && st.scopeIndex.Keys !! st.pubIndex.Keys
  }

  ghost predicate Owner(st: Rv, id: Id, r: Ref)
    requires r in st.nodes
  {
    if st.nodes[r].Scope? then id in st.scopeIndex && st.scopeIndex[id] == r
    else id in st.pubIndex && st.pubIndex[id] == r
  }

  ghost predicate Siblings(st: Rv) {
    forall r, q, f :: r in st.nodes && q in st.nodes && r != q && f in st.nodes[r].fathers && f in st.nodes[q].fathers ==>
      st.nodes[r].name != st.nodes[q].name
  }

  ghost predicate AllSound(st: Rv) {
    forall r {:trigger Sound(st, r)} :: r in st.nodes ==> Sound(st, r)
  }

  ghost predicate AllComplete(st: Rv) {
    forall r {:trigger Complete(st, r)} :: r in st.nodes ==> Complete(st, r) && st.nodes[r].ids != map[]
  }

  /** What holds even while identifiers are being propagated. */
  ghost predicate Graph(st: Rv) {
    Links(st) && AllSound(st) && Indexed(st) && Siblings(st)
  }

  /** What holds between requests. */
  ghost predicate Inv(st: Rv) {
    Graph(st) && AllComplete(st)
  }

  // ---------- identifiers label paths ----------

  /** path leads from a root to its last node along father links. */
  ghost predicate Walk(st: Rv, path: seq<Ref>) {
    && path != []
    && (forall i :: 0 <= i < |path| ==> path[i] in st.nodes)
    && st.nodes[path[0]].fathers == {}
    && (forall i :: 0 <= i < |path| - 1 ==> Linked(st, path, i))
  }

  ghost predicate Linked(st: Rv, path: seq<Ref>, i: nat)
    requires i + 1 < |path|
  {
    path[i + 1] in st.nodes && path[i] in st.nodes[path[i + 1]].fathers
  }

  ghost function Spell(st: Rv, path: seq<Ref>): Id
    requires forall i :: 0 <= i < |path| ==> path[i] in st.nodes
  {
    if path == [] then [] else Spell(st, path[..|path| - 1]) + [st.nodes[path[|path| - 1]].name]
  }

  ghost predicate Labels(st: Rv, id: Id, r: Ref) {
    exists path :: Walk(st, path) && path[|path| - 1] == r && Spell(st, path) == id
  }

  lemma {:induction false} WalkGivesId(st: Rv, path: seq<Ref>)
    requires AllComplete(st) && Walk(st, path)
    ensures Spell(st, path) in st.nodes[path[|path| - 1]].ids
  {
    var n := |path| - 1;
    var r := path[n];
    assert Complete(st, r);
    if n == 0 {
      SingleWalk(st, r);
      assert path == [r];
    } else {
      WalkPrefix(st, path);
      WalkGivesId(st, path[..n]);
      assert Extends(st, r, Spell(st, path[..n]));
    }
  }

  lemma WalkPrefix(st: Rv, path: seq<Ref>)
    requires Walk(st, path) && |path| >= 2
    ensures Walk(st, path[..|path| - 1])
    ensures path[|path| - 2] in st.nodes[path[|path| - 1]].fathers
  {
    var q := path[..|path| - 1];
    assert Linked(st, path, |path| - 2);
    forall i | 0 <= i < |q| - 1 ensures Linked(st, q, i) {
      assert Linked(st, path, i);
    }
  }

  lemma WalkExtend(st: Rv, path: seq<Ref>, r: Ref)
    requires Walk(st, path) && r in st.nodes && path[|path| - 1] in st.nodes[r].fathers
    ensures Walk(st, path + [r])
    ensures Spell(st, path + [r]) == Spell(st, path) + [st.nodes[r].name]
  {
    var q := path + [r];
    assert q[..|path|] == path;
    forall i | 0 <= i < |q| - 1 ensures Linked(st, q, i) {
      if i < |path| - 1 {
        assert Linked(st, path, i);
      }
    }
  }

  lemma {:induction false} IdGivesWalk(st: Rv, id: Id, r: Ref) returns (path: seq<Ref>)
    requires AllSound(st) && r in st.nodes && id in st.nodes[r].ids
    ensures Walk(st, path) && path[|path| - 1] == r && Spell(st, path) == id
    decreases |id|
  {
    hide Walk, Spell;
    assert Sound(st, r);
    FrontLast(id, st.nodes[r].name);
    if st.nodes[r].fathers == {} {
      path := [r];
      SingleWalk(st, r);
      assert id == [Last(id)];
    } else {
      var f :| f in st.nodes[r].fathers && f in st.nodes && Front(id) in st.nodes[f].ids;
      var front := IdGivesWalk(st, Front(id), f);
      WalkExtend(st, front, r);
      path := front + [r];
    }
  }

  lemma SingleWalk(st: Rv, r: Ref)
    requires r in st.nodes && st.nodes[r].fathers == {}
    ensures Walk(st, [r]) && Spell(st, [r]) == [st.nodes[r].name]
  {
    assert Spell(st, [r][..0]) == [];
  }

  /** An identifier is carried by exactly the node at the end of a root path that spells it. */
  lemma IdsLabelPaths(st: Rv, id: Id, r: Ref)
    requires Inv(st) && r in st.nodes
    ensures id in st.nodes[r].ids <==> Labels(st, id, r)
    ensures Owner(st, id, r) <==> Labels(st, id, r)
  {
    if id in st.nodes[r].ids {
      var path := IdGivesWalk(st, id, r);
    }
    if Labels(st, id, r) {
      var path :| Walk(st, path) && path[|path| - 1] == r && Spell(st, path) == id;
      WalkGivesId(st, path);
    }
  }

  lemma FatherOfId(st: Rv, r: Ref, id: Id) returns (f: Ref)
    requires Graph(st) && r in st.nodes && id in st.nodes[r].ids && |id| >= 2
    ensures f in st.nodes[r].fathers && f in st.nodes && st.nodes[f].Scope?
    ensures Front(id) in st.nodes[f].ids && Front(id) in st.scopeIndex && st.scopeIndex[Front(id)] == f
  {
    hide Siblings;
    assert Sound(st, r) && NodeLinks(st, r);
    f :| f in st.nodes[r].fathers && f in st.nodes && Front(id) in st.nodes[f].ids;
    assert Owner(st, Front(id), f);
  }

  lemma IndexedNode(st: Rv, id: Id) returns (r: Ref)
    requires Graph(st) && (id in st.scopeIndex || id in st.pubIndex)
    ensures r in st.nodes && id in st.nodes[r].ids
  {
    hide Links, AllSound, Siblings;
    r := if id in st.scopeIndex then st.scopeIndex[id] else st.pubIndex[id];
  }

  /** Every proper non-empty prefix of an indexed identifier is an indexed scope identifier. */
  lemma {:induction false} PrefixClosed(st: Rv, id: Id, k: nat)
    requires Graph(st) && (id in st.scopeIndex || id in st.pubIndex) && 1 <= k < |id|
    ensures id[..k] in st.scopeIndex
    decreases |id|
  {
    hide Graph;
    var r := IndexedNode(st, id);
    var f := FatherOfId(st, r, id);
    if k < |id| - 1 {
      PrefixClosed(st, Front(id), k);
      assert Front(id)[..k] == id[..k];
    }
  }

  // ---------- the graph is acyclic ----------

  ghost function MaxLen(s: set<Id>): nat
    decreases |s|
  {
    if s == {} then 0
    else
      var id :| id in s;
      var m := MaxLen(s - {id});
      if |id| > m then |id| else m
  }

  lemma {:induction false} MaxLenBounds(s: set<Id>)
    ensures forall id :: id in s ==> |id| <= MaxLen(s)
    ensures s != {} ==> exists id :: id in s && |id| == MaxLen(s)
    decreases |s|
  {
    if s != {} {
      var id :| id in s && MaxLen(s) == var m := MaxLen(s - {id}); if |id| > m then |id| else m;
      MaxLenBounds(s - {id});
      forall x | x in s ensures |x| <= MaxLen(s) {
        assert x == id || x in s - {id};
      }
    }
  }

  ghost function Depth(st: Rv, r: Ref): nat {
    if r in st.nodes then MaxLen(st.nodes[r].ids.Keys) else 0
  }

  /** A child's longest identifier is longer than any identifier of its father: no cycles. */
  lemma FatherIsShallower(st: Rv, f: Ref, r: Ref)
    requires AllComplete(st) && r in st.nodes && f in st.nodes && f in st.nodes[r].fathers
    ensures Depth(st, f) < Depth(st, r)
  {
    hide MaxLen;
    MaxLenBounds(st.nodes[f].ids.Keys);
    MaxLenBounds(st.nodes[r].ids.Keys);
    assert Complete(st, r) && Complete(st, f);
    assert st.nodes[f].ids.Keys != {};
    var id :| id in st.nodes[f].ids.Keys && |id| == Depth(st, f);
    assert Extends(st, r, id);
    assert id + [st.nodes[r].name] in st.nodes[r].ids.Keys;
  }
}
