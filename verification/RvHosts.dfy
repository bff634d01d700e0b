/**
 Publishers and subscribers of the nodes, the sets that mirror them per host, and the elementary
 changes a request makes: entering or leaving a host, adding a child node, dropping a node or one of
 its branches.  Each is shown to keep the graph invariant and the mirror, and its effect on who
 publishes and who subscribes is stated in full.
 */
module RvHosts {
  import opened RvGraph
  import opened RvPropagation

  datatype Role = Publisher | Subscriber

  const NoRecord := HostRecord({}, {}, {}, {})

  function Members(pair: HostPair, role: Role): set<Host> {
    if role.Publisher? then pair.pubs else pair.subs
  }

  function Record(st: Rv, h: Host): HostRecord {
    if h in st.hosts then st.hosts[h] else NoRecord
  }

  function Toggle<T>(s: set<T>, x: T, on: bool): set<T> {
    if on then s + {x} else s - {x}
  }

  function Listed(rec: HostRecord, role: Role, scope: bool): set<Id> {
    if role.Publisher? then (if scope then rec.pubScopes else rec.pubItems)
    else (if scope then rec.subScopes else rec.subItems)
  }

  /** The hosts entered for an identifier. */
  function PairAt(st: Rv, id: Id): HostPair {
    if id in st.scopeIndex && st.scopeIndex[id] in st.nodes && id in st.nodes[st.scopeIndex[id]].ids then st.nodes[st.scopeIndex[id]].ids[id]
    else if id in st.pubIndex && st.pubIndex[id] in st.nodes && id in st.nodes[st.pubIndex[id]].ids then st.nodes[st.pubIndex[id]].ids[id]
    else NoHosts
  }

  /** Host h is entered for the identifier in the given role. */
  predicate Holds(st: Rv, role: Role, h: Host, id: Id) {
    h in Members(PairAt(st, id), role)
  }

  /** Every host's sets list exactly the identifiers it is entered for. */
  ghost predicate Mirror(st: Rv) {
    forall h, role, id ::
      && (id in Listed(Record(st, h), role, true) <==> id in st.scopeIndex && Holds(st, role, h, id))
      && (id in Listed(Record(st, h), role, false) <==> id in st.pubIndex && Holds(st, role, h, id))
  }

  ghost predicate SameEntries(st: Rv, st': Rv) {
    forall h, role, id :: Holds(st', role, h, id) <==> Holds(st, role, h, id)
  }

  lemma PairOfNode(st: Rv, r: Ref, id: Id)
    requires Indexed(st) && r in st.nodes && id in st.nodes[r].ids
    ensures PairAt(st, id) == st.nodes[r].ids[id]
    ensures if st.nodes[r].Scope? then id in st.scopeIndex && id !in st.pubIndex else id in st.pubIndex && id !in st.scopeIndex
  {
    assert Owner(st, id, r);
  }

  // ---------- entering and leaving ----------

  function WithPair(n: Node, id: Id, pair: HostPair): Node {
    n.(ids := n.ids[id := pair])
  }

  function WithMember(pair: HostPair, role: Role, h: Host, on: bool): HostPair {
    if role.Publisher? then pair.(pubs := Toggle(pair.pubs, h, on)) else pair.(subs := Toggle(pair.subs, h, on))
  }

  function WithListed(rec: HostRecord, role: Role, scope: bool, id: Id, on: bool): HostRecord {
    if role.Publisher? then
      (if scope then rec.(pubScopes := Toggle(rec.pubScopes, id, on)) else rec.(pubItems := Toggle(rec.pubItems, id, on)))
    else
      (if scope then rec.(subScopes := Toggle(rec.subScopes, id, on)) else rec.(subItems := Toggle(rec.subItems, id, on)))
  }

  function SetHost(st: Rv, role: Role, r: Ref, id: Id, h: Host, on: bool): Rv
    requires r in st.nodes && id in st.nodes[r].ids
  {
    st.(nodes := st.nodes[r := WithPair(st.nodes[r], id, WithMember(st.nodes[r].ids[id], role, h, on))],
        hosts := st.hosts[h := WithListed(Record(st, h), role, st.nodes[r].Scope?, id, on)])
  }

  ghost predicate SameKeys(st: Rv, st': Rv) {
    && st'.scopeIndex == st.scopeIndex && st'.pubIndex == st.pubIndex
    && st'.nodes.Keys == st.nodes.Keys
    && forall n {:trigger SameNode(st.nodes[n], st'.nodes[n])} :: n in st.nodes ==>
         SameNode(st.nodes[n], st'.nodes[n]) && st'.nodes[n].ids.Keys == st.nodes[n].ids.Keys
  }

  /** The graph invariant does not look at hosts. */
  lemma SameKeysKeepInv(st: Rv, st': Rv)
    requires Inv(st) && SameKeys(st, st')
    ensures Inv(st')
  {
    forall n | n in st.nodes
      ensures n in st'.nodes && SameNode(st.nodes[n], st'.nodes[n]) && st'.nodes[n].ids.Keys == st.nodes[n].ids.Keys
    {
      assert SameNode(st.nodes[n], st'.nodes[n]);
    }
    LinksSameShape(st, st');
    KeysKeepIndexed(st, st');
    KeysKeepNodes(st, st');
  }

  lemma KeysKeepIndexed(st: Rv, st': Rv)
    requires Indexed(st) && Siblings(st)
    requires st'.scopeIndex == st.scopeIndex && st'.pubIndex == st.pubIndex && st'.nodes.Keys == st.nodes.Keys
    requires forall n :: n in st.nodes ==> SameNode(st.nodes[n], st'.nodes[n]) && st'.nodes[n].ids.Keys == st.nodes[n].ids.Keys
    ensures Indexed(st') && Siblings(st')
  {
    forall q, id | q in st'.nodes && id in st'.nodes[q].ids ensures Owner(st', id, q) {
      assert q in st.nodes && id in st.nodes[q].ids.Keys;
      assert Owner(st, id, q);
    }
    forall id | id in st'.scopeIndex
      ensures st'.scopeIndex[id] in st'.nodes && st'.nodes[st'.scopeIndex[id]].Scope? && id in st'.nodes[st'.scopeIndex[id]].ids
    {
      assert id in st.nodes[st.scopeIndex[id]].ids.Keys;
    }
    forall id | id in st'.pubIndex
      ensures st'.pubIndex[id] in st'.nodes && st'.nodes[st'.pubIndex[id]].Item? && id in st'.nodes[st'.pubIndex[id]].ids
    {
      assert id in st.nodes[st.pubIndex[id]].ids.Keys;
    }
    forall p, q, f | p in st'.nodes && q in st'.nodes && p != q && f in st'.nodes[p].fathers && f in st'.nodes[q].fathers
      ensures st'.nodes[p].name != st'.nodes[q].name
    {
      assert p in st.nodes && q in st.nodes;
    }
  }

  lemma KeysKeepNodes(st: Rv, st': Rv)
    requires AllSound(st) && AllComplete(st) && st'.nodes.Keys == st.nodes.Keys
    requires forall n :: n in st.nodes ==> SameNode(st.nodes[n], st'.nodes[n]) && st'.nodes[n].ids.Keys == st.nodes[n].ids.Keys
    ensures AllSound(st') && AllComplete(st')
  {
    forall n | n in st'.nodes ensures Sound(st', n) && Complete(st', n) && st'.nodes[n].ids != map[] {
      assert n in st.nodes && Sound(st, n) && Complete(st, n);
      forall id | id in st'.nodes[n].ids
        ensures id != [] && Last(id) == st'.nodes[n].name
        ensures if st'.nodes[n].fathers == {} then |id| == 1 else |id| >= 2 && FromFather(st', n, Front(id))
      {
        assert id in st.nodes[n].ids.Keys;
        if st.nodes[n].fathers != {} {
          var f :| f in st.nodes[n].fathers && f in st.nodes && Front(id) in st.nodes[f].ids;
          assert f in st'.nodes && Front(id) in st'.nodes[f].ids.Keys;
        }
      }
      forall f, id | f in st'.nodes[n].fathers && f in st'.nodes && id in st'.nodes[f].ids ensures Extends(st', n, id) {
        assert f in st.nodes && id in st.nodes[f].ids.Keys;
        assert Extends(st, n, id);
        assert id + [st.nodes[n].name] in st'.nodes[n].ids.Keys;
      }
      assert st.nodes[n].ids.Keys != {};
    }
  }

  lemma SetHostSameKeys(st: Rv, role: Role, r: Ref, id: Id, h: Host, on: bool)
    requires r in st.nodes && id in st.nodes[r].ids
    ensures SameKeys(st, SetHost(st, role, r, id, h, on))
  {
    var st' := SetHost(st, role, r, id, h, on);
    assert st'.nodes.Keys == st.nodes.Keys;
    assert st'.nodes[r].ids.Keys == st.nodes[r].ids.Keys;
  }

  /** Exactly one entry changes. */
  lemma SetHostEntries(st: Rv, role: Role, r: Ref, id: Id, h: Host, on: bool)
    requires Indexed(st) && r in st.nodes && id in st.nodes[r].ids
    ensures forall h', role', id' :: Holds(SetHost(st, role, r, id, h, on), role', h', id') <==>
      if h' == h && role' == role && id' == id then on else Holds(st, role', h', id')
  {
    var st' := SetHost(st, role, r, id, h, on);
    PairOfNode(st, r, id);
    forall id' ensures PairAt(st', id') == if id' == id then WithMember(PairAt(st, id), role, h, on) else PairAt(st, id') {
      assert st'.nodes[r].ids.Keys == st.nodes[r].ids.Keys;
    }
  }

  /** The graph invariant and the mirror survive; the host's own set follows. */
  lemma SetHostKeeps(st: Rv, role: Role, r: Ref, id: Id, h: Host, on: bool)
    requires Inv(st) && Mirror(st) && r in st.nodes && id in st.nodes[r].ids
    ensures Inv(SetHost(st, role, r, id, h, on)) && Mirror(SetHost(st, role, r, id, h, on))
  {
    hide Links, AllSound, Siblings, AllComplete, Holds;
    var st' := SetHost(st, role, r, id, h, on);
    SetHostSameKeys(st, role, r, id, h, on);
    SameKeysKeepInv(st, st');
    SetHostEntries(st, role, r, id, h, on);
    PairOfNode(st, r, id);
    var scope := st.nodes[r].Scope?;
    forall h', role', id'
      ensures id' in Listed(Record(st', h'), role', true) <==> id' in st'.scopeIndex && Holds(st', role', h', id')
      ensures id' in Listed(Record(st', h'), role', false) <==> id' in st'.pubIndex && Holds(st', role', h', id')
    {
      assert id' in Listed(Record(st, h'), role', true) <==> id' in st.scopeIndex && Holds(st, role', h', id');
    }
  }

  // ---------- a new node below a father ----------

  function Child(scope: bool, name: Fragment, strategy: nat, f: Ref): Node {
    if scope then Scope(name, strategy, map[], {f}, {}, {}) else Item(name, strategy, map[], {f})
  }

  function Attach(st: Rv, f: Ref, r: Ref, scope: bool, name: Fragment, strategy: nat): Rv
    requires f in st.nodes && st.nodes[f].Scope?
  {
    var father := if scope then WithChild(st.nodes[f], r) else WithItem(st.nodes[f], r);
    st.(nodes := st.nodes[r := Child(scope, name, strategy, f)][f := father])
  }

  /** The new node with all its identifiers. */
  ghost function NewChild(st: Rv, f: Ref, r: Ref, scope: bool, name: Fragment, strategy: nat): Rv
    requires f in st.nodes && st.nodes[f].Scope? && r !in st.nodes
  {
    var st1 := Attach(st, f, r, scope, name, strategy);
    AddIds(st1, r, Missing(st1, r))
  }

  ghost predicate OnlyAttached(st: Rv, st': Rv, r: Ref) {
    && st'.scopeIndex == st.scopeIndex && st'.pubIndex == st.pubIndex && st'.hosts == st.hosts
    && st'.nodes.Keys == st.nodes.Keys + {r} && r !in st.nodes && st'.nodes[r].ids == map[]
    && forall n {:trigger AttachedNode(st, st', n)} :: n in st.nodes ==> AttachedNode(st, st', n)
  }

  ghost predicate AttachedNode(st: Rv, st': Rv, n: Ref) {
    && n in st.nodes && n in st'.nodes
    && st'.nodes[n].ids == st.nodes[n].ids && st'.nodes[n].name == st.nodes[n].name
    && st'.nodes[n].Scope? == st.nodes[n].Scope? && st'.nodes[n].fathers == st.nodes[n].fathers
    && st'.nodes[n].strategy == st.nodes[n].strategy
  }

  lemma AttachLinks(st: Rv, f: Ref, r: Ref, scope: bool, name: Fragment, strategy: nat)
    requires Links(st) && f in st.nodes && st.nodes[f].Scope? && r !in st.nodes
    ensures Links(Attach(st, f, r, scope, name, strategy))
  {
    var st' := Attach(st, f, r, scope, name, strategy);
    forall n | n in st'.nodes ensures NodeLinks(st', n) {
      if n != r {
        assert NodeLinks(st, n);
        forall g | g in st'.nodes[n].fathers ensures FatherLink(st', n, g) {
          assert FatherLink(st, n, g);
        }
      }
    }
  }

  lemma AttachOnly(st: Rv, f: Ref, r: Ref, scope: bool, name: Fragment, strategy: nat)
    requires f in st.nodes && st.nodes[f].Scope? && r !in st.nodes
    ensures OnlyAttached(st, Attach(st, f, r, scope, name, strategy), r)
  {
    var st' := Attach(st, f, r, scope, name, strategy);
    assert st'.nodes.Keys == st.nodes.Keys + {r};
  }

  lemma AttachedSound(st: Rv, st': Rv, r: Ref)
    requires AllSound(st) && OnlyAttached(st, st', r)
    ensures AllSound(st')
  {
    forall n | n in st'.nodes ensures Sound(st', n) {
      if n != r {
        assert AttachedNode(st, st', n) && Sound(st, n);
        forall id | id in st'.nodes[n].ids && st.nodes[n].fathers != {} ensures FromFather(st', n, Front(id)) {
          var g :| g in st.nodes[n].fathers && g in st.nodes && Front(id) in st.nodes[g].ids;
          assert AttachedNode(st, st', g);
        }
      }
    }
  }

  lemma AttachedIndexed(st: Rv, st': Rv, r: Ref)
    requires Indexed(st) && OnlyAttached(st, st', r)
    ensures Indexed(st')
  {
    forall q, id | q in st'.nodes && id in st'.nodes[q].ids ensures Owner(st', id, q) {
      assert AttachedNode(st, st', q) && Owner(st, id, q);
    }
    forall id | id in st'.scopeIndex
      ensures st'.scopeIndex[id] in st'.nodes && st'.nodes[st'.scopeIndex[id]].Scope? && id in st'.nodes[st'.scopeIndex[id]].ids
    {
      assert AttachedNode(st, st', st.scopeIndex[id]);
    }
    forall id | id in st'.pubIndex
      ensures st'.pubIndex[id] in st'.nodes && st'.nodes[st'.pubIndex[id]].Item? && id in st'.nodes[st'.pubIndex[id]].ids
    {
      assert AttachedNode(st, st', st.pubIndex[id]);
    }
  }

  lemma AttachedSiblings(st: Rv, st': Rv, r: Ref, f: Ref)
    requires Siblings(st) && OnlyAttached(st, st', r) && st'.nodes[r].fathers == {f}
    requires forall n :: n in st.nodes && f in st.nodes[n].fathers ==> st.nodes[n].name != st'.nodes[r].name
    ensures Siblings(st')
  {
    forall p, q, g | p in st'.nodes && q in st'.nodes && p != q && g in st'.nodes[p].fathers && g in st'.nodes[q].fathers
      ensures st'.nodes[p].name != st'.nodes[q].name
    {
      if p != r {
        assert AttachedNode(st, st', p);
      }
      if q != r {
        assert AttachedNode(st, st', q);
      }
    }
  }

  lemma AttachedComplete(st: Rv, st': Rv, r: Ref, n: Ref)
    requires Links(st) && OnlyAttached(st, st', r) && n in st.nodes && Complete(st, n)
    ensures Complete(st', n)
  {
    assert AttachedNode(st, st', n) && NodeLinks(st, n);
    forall g, id | g in st'.nodes[n].fathers && g in st'.nodes && id in st'.nodes[g].ids ensures Extends(st', n, id) {
      assert FatherLink(st, n, g);
      assert AttachedNode(st, st', g);
      assert Extends(st, n, id);
    }
  }

  /** A node attached at a free place: everything but its own identifiers is in order. */
  lemma AttachKeepsGraph(st: Rv, f: Ref, r: Ref, scope: bool, name: Fragment, strategy: nat, prefix: Id)
    requires Inv(st) && f in st.nodes && st.nodes[f].Scope? && r !in st.nodes
    requires prefix in st.nodes[f].ids && prefix + [name] !in st.scopeIndex && prefix + [name] !in st.pubIndex
    ensures Graph(Attach(st, f, r, scope, name, strategy)) && OnlyAttached(st, Attach(st, f, r, scope, name, strategy), r)
    ensures forall n :: n in st.nodes ==> Complete(Attach(st, f, r, scope, name, strategy), n)
  {
    hide Links, AllSound, Indexed, Siblings, Complete;
    var st1 := Attach(st, f, r, scope, name, strategy);
    NameIsFree(st, f, prefix, name);
    AttachOnly(st, f, r, scope, name, strategy);
    AttachLinks(st, f, r, scope, name, strategy);
    AttachedSound(st, st1, r);
    AttachedIndexed(st, st1, r);
    AttachedSiblings(st, st1, r, f);
    forall n | n in st.nodes ensures Complete(st1, n) {
      AttachedComplete(st, st1, r, n);
    }
  }

  /** A node attached at a free place, and updated, leaves the invariant intact. */
  lemma NewChildKeepsInv(st: Rv, f: Ref, r: Ref, scope: bool, name: Fragment, strategy: nat, prefix: Id)
    requires Inv(st) && f in st.nodes && st.nodes[f].Scope? && r !in st.nodes
    requires prefix in st.nodes[f].ids && prefix + [name] !in st.scopeIndex && prefix + [name] !in st.pubIndex
    ensures Inv(NewChild(st, f, r, scope, name, strategy))
    ensures prefix + [name] in NewChild(st, f, r, scope, name, strategy).nodes[r].ids
  {
    hide Graph, Complete, AddIds, Missing, NodeGrows;
    var st1 := Attach(st, f, r, scope, name, strategy);
    AttachKeepsGraph(st, f, r, scope, name, strategy, prefix);
    VisitingStarts(st1, r);
    var st2 := AddIds(st1, r, Missing(st1, r));
    VisitingEnds(st1, st2, r);
    NewChildCarries(st1, st2, r, f, prefix);
    AttachedRestores(st, st1, st2, r);
  }

  lemma NewChildCarries(st1: Rv, st2: Rv, r: Ref, f: Ref, prefix: Id)
    requires f in st1.nodes && r in st1.nodes && prefix in st1.nodes[f].ids && f in st1.nodes[r].fathers
    requires Propagated(st1, st2, r)
    ensures prefix + [st1.nodes[r].name] in st2.nodes[r].ids
  {
    assert NodeGrows(st1.nodes[r], st2.nodes[r]) && NodeGrows(st1.nodes[f], st2.nodes[f]);
    assert Complete(st2, r) && f in st2.nodes;
    assert Extends(st2, r, prefix);
  }

  lemma AttachedRestores(st: Rv, st1: Rv, st2: Rv, r: Ref)
    requires Inv(st) && OnlyAttached(st, st1, r) && Propagated(st1, st2, r)
    requires forall n :: n in st.nodes ==> Complete(st1, n)
    requires r in st2.nodes && st2.nodes[r].ids != map[]
    ensures Inv(st2)
  {
    hide Graph, Complete;
    forall n | n in st2.nodes ensures Complete(st2, n) && st2.nodes[n].ids != map[] {
      if n != r {
        assert AttachedNode(st, st1, n) && NodeGrows(st1.nodes[n], st2.nodes[n]) && Complete(st, n);
        assert st.nodes[n].ids.Keys != {};
        var id :| id in st.nodes[n].ids;
        assert id in st2.nodes[n].ids;
      }
    }
  }

  // ---------- changes that touch no entry ----------

  /** The hosts of every identifier are the same, and identifiers with hosts keep their kind. */
  ghost predicate SamePairs(st: Rv, st': Rv) {
    && st'.hosts == st.hosts
    && forall id {:trigger PairAt(st', id)} :: PairAt(st', id) == PairAt(st, id)
         && (PairAt(st, id) != NoHosts ==>
              (id in st'.scopeIndex <==> id in st.scopeIndex) && (id in st'.pubIndex <==> id in st.pubIndex))
  }

  lemma SamePairsKeepEntries(st: Rv, st': Rv)
    requires SamePairs(st, st')
    ensures SameEntries(st, st') && (Mirror(st) ==> Mirror(st'))
  {
    hide PairAt;
    forall h, role, id ensures Holds(st', role, h, id) <==> Holds(st, role, h, id) {
      assert PairAt(st', id) == PairAt(st, id);
    }
    if Mirror(st) {
      forall h, role, id
        ensures id in Listed(Record(st', h), role, true) <==> id in st'.scopeIndex && Holds(st', role, h, id)
        ensures id in Listed(Record(st', h), role, false) <==> id in st'.pubIndex && Holds(st', role, h, id)
      {
        assert PairAt(st', id) == PairAt(st, id);
        assert Holds(st, role, h, id) ==> PairAt(st, id) != NoHosts;
        assert id in Listed(Record(st, h), role, true) <==> id in st.scopeIndex && Holds(st, role, h, id);
      }
    }
  }

  lemma UnindexedPair(st: Rv, id: Id)
    requires id !in st.scopeIndex && id !in st.pubIndex
    ensures PairAt(st, id) == NoHosts
  {
  }

  lemma GrowsSamePairs(st: Rv, st': Rv)
    requires Graph(st) && Graph(st') && Grows(st, st')
    ensures SamePairs(st, st')
  {
    hide Links, AllSound, Siblings, PairAt;
    forall id
      ensures PairAt(st', id) == PairAt(st, id)
      ensures PairAt(st, id) != NoHosts ==>
        (id in st'.scopeIndex <==> id in st.scopeIndex) && (id in st'.pubIndex <==> id in st.pubIndex)
    {
      if id in st.scopeIndex || id in st.pubIndex {
        var r := IndexedNode(st, id);
        assert NodeGrows(st.nodes[r], st'.nodes[r]);
        PairOfNode(st, r, id);
        PairOfNode(st', r, id);
      } else {
        UnindexedPair(st, id);
        if id in st'.scopeIndex || id in st'.pubIndex {
          var r := IndexedNode(st', id);
          assert r in st.nodes && NodeGrows(st.nodes[r], st'.nodes[r]);
          if id in st.nodes[r].ids {
            PairOfNode(st, r, id);
          } else {
            PairOfNode(st', r, id);
          }
        } else {
          UnindexedPair(st', id);
        }
      }
    }
  }

  lemma AttachedSamePairs(st: Rv, st': Rv, r: Ref)
    requires Indexed(st) && OnlyAttached(st, st', r)
    ensures SamePairs(st, st')
  {
    forall id ensures PairAt(st', id) == PairAt(st, id) {
      if id in st.scopeIndex {
        assert AttachedNode(st, st', st.scopeIndex[id]);
      } else if id in st.pubIndex {
        assert AttachedNode(st, st', st.pubIndex[id]);
      }
    }
  }

  /** A new child node brings no entries. */
  lemma NewChildEntries(st: Rv, f: Ref, r: Ref, scope: bool, name: Fragment, strategy: nat, prefix: Id)
    requires Inv(st) && f in st.nodes && st.nodes[f].Scope? && r !in st.nodes
    requires prefix in st.nodes[f].ids && prefix + [name] !in st.scopeIndex && prefix + [name] !in st.pubIndex
    ensures SamePairs(st, NewChild(st, f, r, scope, name, strategy))
  {
    hide Links, AllSound, Siblings, Complete, AddIds, Missing, PairAt;
    var st1 := Attach(st, f, r, scope, name, strategy);
    NameIsFree(st, f, prefix, name);
    AttachOnly(st, f, r, scope, name, strategy);
    AttachLinks(st, f, r, scope, name, strategy);
    AttachedSound(st, st1, r);
    AttachedIndexed(st, st1, r);
    AttachedSiblings(st, st1, r, f);
    AddIdsKeepsGraph(st1, r, Missing(st1, r));
    AttachedSamePairs(st, st1, r);
    GrowsSamePairs(st1, AddIds(st1, r, Missing(st1, r)));
    SamePairsTransitive(st, st1, AddIds(st1, r, Missing(st1, r)));
  }

  lemma SamePairsTransitive(st0: Rv, st1: Rv, st2: Rv)
    requires SamePairs(st0, st1) && SamePairs(st1, st2)
    ensures SamePairs(st0, st2)
  {
    hide PairAt;
    forall id
      ensures PairAt(st2, id) == PairAt(st0, id)
      ensures PairAt(st0, id) != NoHosts ==>
        (id in st2.scopeIndex <==> id in st0.scopeIndex) && (id in st2.pubIndex <==> id in st0.pubIndex)
    {
      assert PairAt(st2, id) == PairAt(st1, id) && PairAt(st1, id) == PairAt(st0, id);
    }
  }

  // ---------- dropping a branch, a node, a root ----------

  /** The identifiers r owes to its father f. */
  function IdsVia(st: Rv, f: Ref, r: Ref): set<Id>
    requires f in st.nodes && r in st.nodes
  {
    set id | id in st.nodes[f].ids :: id + [st.nodes[r].name]
  }

  /** No publisher and no subscriber of r is entered under any identifier it owes to f. */
  predicate Unused(st: Rv, f: Ref, r: Ref)
    requires f in st.nodes && r in st.nodes
  {
    forall id :: id in IdsVia(st, f, r) && id in st.nodes[r].ids ==> st.nodes[r].ids[id] == NoHosts
  }

  function Without(n: Node, f: Ref, gone: set<Id>): Node {
    n.(fathers := n.fathers - {f}, ids := n.ids - gone)
  }

  function WithoutChild(n: Node, r: Ref, scope: bool): Node
    requires n.Scope?
  {
    if scope then n.(children := n.children - {r}) else n.(items := n.items - {r})
  }

  function Unindex(st: Rv, r: Ref, gone: set<Id>): Rv
    requires r in st.nodes
  {
    if st.nodes[r].Scope? then st.(scopeIndex := st.scopeIndex - gone) else st.(pubIndex := st.pubIndex - gone)
  }

  /** r loses its father f and the identifiers that came with it. */
  function DropBranch(st: Rv, f: Ref, r: Ref): Rv
    requires f in st.nodes && r in st.nodes && st.nodes[f].Scope?
  {
    var gone := IdsVia(st, f, r);
    Unindex(st, r, gone).(nodes := st.nodes[r := Without(st.nodes[r], f, gone)][f := WithoutChild(st.nodes[f], r, st.nodes[r].Scope?)])
  }

  /** r disappears from under its only father. */
  function DropNode(st: Rv, f: Ref, r: Ref): Rv
    requires f in st.nodes && r in st.nodes && st.nodes[f].Scope?
  {
    Unindex(st, r, st.nodes[r].ids.Keys).(nodes := st.nodes[f := WithoutChild(st.nodes[f], r, st.nodes[r].Scope?)] - {r})
  }

  function DropRoot(st: Rv, r: Ref): Rv
    requires r in st.nodes
  {
    Unindex(st, r, st.nodes[r].ids.Keys).(nodes := st.nodes - {r})
  }

  ghost predicate NoChildren(st: Rv, r: Ref) {
    forall n :: n in st.nodes ==> r !in st.nodes[n].fathers
  }

  lemma LeafHasNoChildren(st: Rv, r: Ref)
    requires Links(st) && r in st.nodes
    requires st.nodes[r].Scope? ==> st.nodes[r].children == {} && st.nodes[r].items == {}
    ensures NoChildren(st, r)
  {
    forall n | n in st.nodes ensures r !in st.nodes[n].fathers {
      assert NodeLinks(st, n);
      forall f | f in st.nodes[n].fathers ensures f != r {
        assert FatherLink(st, n, f);
      }
    }
  }

  /** Everything but r and its identifiers in gone is as before; r is gone with all of them or remains. */
  ghost predicate OnlyDropped(st: Rv, st': Rv, r: Ref, gone: set<Id>) {
    && r in st.nodes && gone <= st.nodes[r].ids.Keys
    && (if st.nodes[r].Scope? then st'.scopeIndex == st.scopeIndex - gone && st'.pubIndex == st.pubIndex
        else st'.pubIndex == st.pubIndex - gone && st'.scopeIndex == st.scopeIndex)
    && st'.hosts == st.hosts
    && (forall n {:trigger AttachedNode(st, st', n)} :: n in st.nodes && n != r ==> AttachedNode(st, st', n))
    && (forall n :: n in st'.nodes ==> n in st.nodes)
    && (if r in st'.nodes then
          && st'.nodes[r].ids == st.nodes[r].ids - gone && st'.nodes[r].name == st.nodes[r].name
          && st'.nodes[r].Scope? == st.nodes[r].Scope? && st'.nodes[r].fathers <= st.nodes[r].fathers
          && st'.nodes[r].strategy == st.nodes[r].strategy
        else gone == st.nodes[r].ids.Keys)
  }

  lemma DroppedIndexed(st: Rv, st': Rv, r: Ref, gone: set<Id>)
    requires Indexed(st) && OnlyDropped(st, st', r, gone)
    ensures Indexed(st')
  {
    forall q, id | q in st'.nodes && id in st'.nodes[q].ids ensures Owner(st', id, q) {
      if q != r {
        assert AttachedNode(st, st', q);
        assert Owner(st, id, q);
        if id in gone {
          assert Owner(st, id, r);
        }
      } else {
        assert Owner(st, id, q);
      }
    }
    forall id | id in st'.scopeIndex
      ensures st'.scopeIndex[id] in st'.nodes && st'.nodes[st'.scopeIndex[id]].Scope? && id in st'.nodes[st'.scopeIndex[id]].ids
    {
      var q := st.scopeIndex[id];
      if q != r {
        assert AttachedNode(st, st', q);
      }
    }
    forall id | id in st'.pubIndex
      ensures st'.pubIndex[id] in st'.nodes && st'.nodes[st'.pubIndex[id]].Item? && id in st'.nodes[st'.pubIndex[id]].ids
    {
      var q := st.pubIndex[id];
      if q != r {
        assert AttachedNode(st, st', q);
      }
    }
  }

  lemma DroppedSiblings(st: Rv, st': Rv, r: Ref, gone: set<Id>)
    requires Siblings(st) && OnlyDropped(st, st', r, gone)
    ensures Siblings(st')
  {
    forall p, q, g | p in st'.nodes && q in st'.nodes && p != q && g in st'.nodes[p].fathers && g in st'.nodes[q].fathers
      ensures st'.nodes[p].name != st'.nodes[q].name
    {
      if p != r {
        assert AttachedNode(st, st', p);
      }
      if q != r {
        assert AttachedNode(st, st', q);
      }
    }
  }

  /** Every node other than r keeps its identifiers and its fathers theirs. */
  lemma DroppedOthers(st: Rv, st': Rv, r: Ref, gone: set<Id>, n: Ref)
    requires Inv(st) && OnlyDropped(st, st', r, gone) && NoChildren(st, r) && n in st.nodes && n != r
    ensures n in st'.nodes && Sound(st', n) && Complete(st', n) && st'.nodes[n].ids != map[]
  {
    hide Links, Indexed, Siblings, OnlyDropped, Sound, Complete;
    DroppedFathers(st, st', r, gone, n);
    assert Sound(st, n) && Complete(st, n);
    DroppedOther(st, st', n);
  }

  lemma DroppedFathers(st: Rv, st': Rv, r: Ref, gone: set<Id>, n: Ref)
    requires OnlyDropped(st, st', r, gone) && NoChildren(st, r) && n in st.nodes && n != r
    ensures AttachedNode(st, st', n)
    ensures forall g :: g in st.nodes && g in st.nodes[n].fathers ==> AttachedNode(st, st', g)
    ensures forall g :: g in st'.nodes ==> g in st.nodes
  {
    hide AttachedNode;
  }

  lemma DroppedOther(st: Rv, st': Rv, n: Ref)
    requires n in st.nodes && Sound(st, n) && Complete(st, n) && st.nodes[n].ids != map[]
    requires AttachedNode(st, st', n)
    requires forall g :: g in st.nodes && g in st.nodes[n].fathers ==> AttachedNode(st, st', g)
    requires forall g :: g in st'.nodes ==> g in st.nodes
    ensures Sound(st', n) && Complete(st', n) && st'.nodes[n].ids != map[]
  {
    forall id | id in st'.nodes[n].ids && st.nodes[n].fathers != {} ensures FromFather(st', n, Front(id)) {
      var g :| g in st.nodes[n].fathers && g in st.nodes && Front(id) in st.nodes[g].ids;
      assert AttachedNode(st, st', g);
    }
    forall g, id | g in st'.nodes[n].fathers && g in st'.nodes && id in st'.nodes[g].ids ensures Extends(st', n, id) {
      assert AttachedNode(st, st', g);
      assert Extends(st, n, id);
    }
  }

  lemma DroppedSamePairs(st: Rv, st': Rv, r: Ref, gone: set<Id>)
    requires Indexed(st) && OnlyDropped(st, st', r, gone)
    requires forall id :: id in gone ==> st.nodes[r].ids[id] == NoHosts
    ensures SamePairs(st, st')
  {
    DroppedIndexed(st, st', r, gone);
    hide PairAt;
    forall id
      ensures PairAt(st', id) == PairAt(st, id)
      ensures PairAt(st, id) != NoHosts ==>
        (id in st'.scopeIndex <==> id in st.scopeIndex) && (id in st'.pubIndex <==> id in st.pubIndex)
    {
      if id in gone {
        PairOfNode(st, r, id);
        UnindexedPair(st', id);
      } else if id in st.scopeIndex {
        var q := st.scopeIndex[id];
        if q != r {
          assert AttachedNode(st, st', q);
        }
        PairOfNode(st, q, id);
        PairOfNode(st', q, id);
      } else if id in st.pubIndex {
        var q := st.pubIndex[id];
        if q != r {
          assert AttachedNode(st, st', q);
        }
        PairOfNode(st, q, id);
        PairOfNode(st', q, id);
      } else {
        UnindexedPair(st, id);
        UnindexedPair(st', id);
      }
    }
  }

  // the three ways of dropping

  lemma DropBranchShape(st: Rv, f: Ref, r: Ref)
    requires Inv(st) && r in st.nodes && f in st.nodes && f in st.nodes[r].fathers && f != r
    ensures st.nodes[f].Scope? && OnlyDropped(st, DropBranch(st, f, r), r, IdsVia(st, f, r))
    ensures r in DropBranch(st, f, r).nodes && DropBranch(st, f, r).nodes[r].fathers == st.nodes[r].fathers - {f}
  {
    hide AllSound, Indexed, Siblings;
    assert NodeLinks(st, r) && FatherLink(st, r, f) && Complete(st, r);
    forall id | id in IdsVia(st, f, r) ensures id in st.nodes[r].ids.Keys {
      var fid :| fid in st.nodes[f].ids && fid + [st.nodes[r].name] == id;
      assert Extends(st, r, fid);
    }
    var st' := DropBranch(st, f, r);
    forall n | n in st.nodes && n != r ensures n in st'.nodes && AttachedNode(st, st', n) {
    }
  }

  lemma DropBranchLinks(st: Rv, f: Ref, r: Ref)
    requires Links(st) && r in st.nodes && f in st.nodes && f in st.nodes[r].fathers && f != r && st.nodes[f].Scope?
    requires st.nodes[r].fathers != {f} && NoChildren(st, r)
    ensures Links(DropBranch(st, f, r))
  {
    var st' := DropBranch(st, f, r);
    forall n | n in st'.nodes ensures NodeLinks(st', n) {
      assert NodeLinks(st, n);
      forall g | g in st'.nodes[n].fathers ensures FatherLink(st', n, g) {
        assert FatherLink(st, n, g);
      }
    }
  }

  lemma DropBranchOwn(st: Rv, st': Rv, f: Ref, r: Ref)
    requires Inv(st) && r in st.nodes && f in st.nodes && f in st.nodes[r].fathers
    requires st.nodes[r].fathers != {f} && r !in st.nodes[r].fathers
    requires OnlyDropped(st, st', r, IdsVia(st, f, r)) && r in st'.nodes && st'.nodes[r].fathers == st.nodes[r].fathers - {f}
    ensures Sound(st', r) && Complete(st', r) && st'.nodes[r].ids != map[]
  {
    hide Links, Indexed, Siblings, AllSound, AllComplete, IdsVia, OnlyDropped, AttachedNode;
    DropBranchSound(st, st', f, r);
    DropBranchComplete(st, st', f, r);
    var g :| g in st.nodes[r].fathers && g != f;
    ScopeOfFatherInv(st, r, g);
    assert st.nodes[g].ids.Keys != {};
    var id :| id in st.nodes[g].ids;
    DroppedFather(st, st', f, r, g);
    assert Extends(st', r, id);
  }

  lemma DroppedFather(st: Rv, st': Rv, f: Ref, r: Ref, g: Ref)
    requires f in st.nodes && r in st.nodes && g in st.nodes && g != r && OnlyDropped(st, st', r, IdsVia(st, f, r))
    ensures g in st'.nodes && st'.nodes[g].ids == st.nodes[g].ids
  {
    assert AttachedNode(st, st', g);
  }

  lemma DropBranchSound(st: Rv, st': Rv, f: Ref, r: Ref)
    requires Inv(st) && r in st.nodes && f in st.nodes && f in st.nodes[r].fathers
    requires st.nodes[r].fathers != {f} && r !in st.nodes[r].fathers
    requires OnlyDropped(st, st', r, IdsVia(st, f, r)) && r in st'.nodes && st'.nodes[r].fathers == st.nodes[r].fathers - {f}
    ensures Sound(st', r)
  {
    hide Links, Indexed, Siblings, AllComplete, AttachedNode;
    assert Sound(st, r);
    forall id | id in st'.nodes[r].ids ensures FromFather(st', r, Front(id)) {
      var g :| g in st.nodes[r].fathers && g in st.nodes && Front(id) in st.nodes[g].ids;
      FrontLast(id, st.nodes[r].name);
      assert g != f;
      DroppedFather(st, st', f, r, g);
    }
    assert st'.nodes[r].fathers != {};
  }

  lemma DropBranchComplete(st: Rv, st': Rv, f: Ref, r: Ref)
    requires Inv(st) && r in st.nodes && f in st.nodes && f in st.nodes[r].fathers
    requires st.nodes[r].fathers != {f} && r !in st.nodes[r].fathers
    requires OnlyDropped(st, st', r, IdsVia(st, f, r)) && r in st'.nodes && st'.nodes[r].fathers == st.nodes[r].fathers - {f}
    ensures Complete(st', r)
  {
    hide Graph, AttachedNode;
    assert Complete(st, r);
    assert st'.nodes[r].fathers != {};
    forall g, id | g in st'.nodes[r].fathers && g in st'.nodes && id in st'.nodes[g].ids ensures Extends(st', r, id) {
      assert g in st.nodes by { ScopeOfFatherInv(st, r, g); }
      DroppedFather(st, st', f, r, g);
      assert Extends(st, r, id);
      OtherFather(st, f, g, r, id);
    }
  }

  lemma ScopeOfFatherInv(st: Rv, r: Ref, f: Ref)
    requires Inv(st) && r in st.nodes && f in st.nodes[r].fathers
    ensures f in st.nodes && st.nodes[f].Scope? && Complete(st, f) && st.nodes[f].ids != map[]
  {
    ScopeOfFather(st, r, f);
  }

  lemma OtherFather(st: Rv, f: Ref, g: Ref, r: Ref, id: Id)
    requires Graph(st) && f in st.nodes && g in st.nodes && r in st.nodes && f != g && id in st.nodes[g].ids
    ensures id + [st.nodes[r].name] !in IdsVia(st, f, r)
  {
    if id + [st.nodes[r].name] in IdsVia(st, f, r) {
      var fid :| fid in st.nodes[f].ids && fid + [st.nodes[r].name] == id + [st.nodes[r].name];
      FrontLast(fid, st.nodes[r].name);
      FrontLast(id, st.nodes[r].name);
      OneOwner(st, f, g, id);
    }
  }

  lemma NotOwnFather(st: Rv, r: Ref)
    requires Inv(st) && r in st.nodes
    ensures r !in st.nodes[r].fathers
  {
    hide Graph, Depth;
    if r in st.nodes[r].fathers {
      FatherIsShallower(st, r, r);
    }
  }

  /** Dropping an unused branch of a leaf with other fathers keeps everything. */
  lemma DropBranchKeeps(st: Rv, f: Ref, r: Ref)
    requires Inv(st) && r in st.nodes && f in st.nodes[r].fathers && f in st.nodes
    requires st.nodes[r].fathers != {f} && Unused(st, f, r)
    requires st.nodes[r].Scope? ==> st.nodes[r].children == {} && st.nodes[r].items == {}
    ensures f != r && st.nodes[f].Scope?
    ensures Inv(DropBranch(st, f, r)) && SamePairs(st, DropBranch(st, f, r))
  {
    hide DropBranch, IdsVia, Links, Indexed, Siblings, Sound, Complete;
    NotOwnFather(st, r);
    ScopeOfFatherInv(st, r, f);
    LeafHasNoChildren(st, r);
    DropBranchShape(st, f, r);
    var st' := DropBranch(st, f, r);
    var gone := IdsVia(st, f, r);
    DropBranchLinks(st, f, r);
    DroppedIndexed(st, st', r, gone);
    DroppedSiblings(st, st', r, gone);
    DropBranchOwn(st, st', f, r);
    forall n | n in st'.nodes ensures Sound(st', n) && Complete(st', n) && st'.nodes[n].ids != map[] {
      if n != r {
        DroppedOthers(st, st', r, gone, n);
      }
    }
    DroppedSamePairs(st, st', r, gone);
  }

  lemma DropNodeShape(st: Rv, st': Rv, r: Ref)
    requires r in st.nodes
    requires (exists f :: f in st.nodes && f != r && st.nodes[f].Scope? && st' == DropNode(st, f, r)) || st' == DropRoot(st, r)
    ensures OnlyDropped(st, st', r, st.nodes[r].ids.Keys) && r !in st'.nodes
  {
  }

  lemma DropNodeLinks(st: Rv, f: Ref, r: Ref)
    requires Links(st) && r in st.nodes && f in st.nodes && f != r && st.nodes[f].Scope? && st.nodes[r].fathers == {f}
    requires NoChildren(st, r)
    ensures Links(DropNode(st, f, r))
  {
    var st' := DropNode(st, f, r);
    forall n | n in st'.nodes ensures NodeLinks(st', n) {
      assert NodeLinks(st, n);
      forall g | g in st'.nodes[n].fathers ensures FatherLink(st', n, g) {
        assert FatherLink(st, n, g);
      }
    }
  }

  lemma DropRootLinks(st: Rv, r: Ref)
    requires Links(st) && r in st.nodes && st.nodes[r].fathers == {} && NoChildren(st, r)
    ensures Links(DropRoot(st, r))
  {
    var st' := DropRoot(st, r);
    forall n | n in st'.nodes ensures NodeLinks(st', n) {
      assert NodeLinks(st, n);
      forall g | g in st'.nodes[n].fathers ensures FatherLink(st', n, g) {
        assert FatherLink(st, n, g);
      }
    }
  }

  lemma DroppedNodeKeeps(st: Rv, st': Rv, r: Ref)
    requires Inv(st) && r in st.nodes && OnlyDropped(st, st', r, st.nodes[r].ids.Keys) && r !in st'.nodes
    requires NoChildren(st, r) && Links(st')
    requires forall id :: id in st.nodes[r].ids ==> st.nodes[r].ids[id] == NoHosts
    ensures Inv(st') && SamePairs(st, st')
  {
    hide Links, Siblings, Sound, Complete;
    var gone := st.nodes[r].ids.Keys;
    DroppedIndexed(st, st', r, gone);
    DroppedSiblings(st, st', r, gone);
    forall n | n in st'.nodes ensures Sound(st', n) && Complete(st', n) && st'.nodes[n].ids != map[] {
      DroppedOthers(st, st', r, gone, n);
    }
    DroppedSamePairs(st, st', r, gone);
  }

  /** With a single father the identifiers owed to it are all there are. */
  lemma SingleFatherIds(st: Rv, f: Ref, r: Ref)
    requires Inv(st) && r in st.nodes && f in st.nodes && st.nodes[r].fathers == {f}
    ensures IdsVia(st, f, r) == st.nodes[r].ids.Keys
  {
    hide Links, Indexed, Siblings;
    assert Sound(st, r) && Complete(st, r);
    forall id | id in IdsVia(st, f, r) ensures id in st.nodes[r].ids.Keys {
      var fid :| fid in st.nodes[f].ids && fid + [st.nodes[r].name] == id;
      assert Extends(st, r, fid);
    }
    forall id | id in st.nodes[r].ids.Keys ensures id in IdsVia(st, f, r) {
      assert FromFather(st, r, Front(id));
      FrontLast(id, st.nodes[r].name);
    }
  }

  /** Dropping an unused leaf from under its only father keeps everything. */
  lemma DropNodeKeeps(st: Rv, f: Ref, r: Ref)
    requires Inv(st) && r in st.nodes && st.nodes[r].fathers == {f} && f in st.nodes && Unused(st, f, r)
    requires st.nodes[r].Scope? ==> st.nodes[r].children == {} && st.nodes[r].items == {}
    ensures f != r && st.nodes[f].Scope?
    ensures Inv(DropNode(st, f, r)) && SamePairs(st, DropNode(st, f, r))
  {
    hide DropNode, IdsVia, Links, Indexed, Siblings, AllSound, AllComplete;
    NotOwnFather(st, r);
    ScopeOfFatherInv(st, r, f);
    LeafHasNoChildren(st, r);
    SingleFatherIds(st, f, r);
    DropNodeLinks(st, f, r);
    DropNodeShape(st, DropNode(st, f, r), r);
    DroppedNodeKeeps(st, DropNode(st, f, r), r);
  }

  /** Dropping a root scope without children, publishers and subscribers keeps everything. */
  lemma DropRootKeeps(st: Rv, r: Ref)
    requires Inv(st) && r in st.nodes && st.nodes[r].fathers == {}
    requires st.nodes[r].Scope? && st.nodes[r].children == {} && st.nodes[r].items == {}
    requires forall id :: id in st.nodes[r].ids ==> st.nodes[r].ids[id] == NoHosts
    ensures Inv(DropRoot(st, r)) && SamePairs(st, DropRoot(st, r))
  {
    hide DropRoot, Links, Indexed, Siblings, AllSound, AllComplete;
    LeafHasNoChildren(st, r);
    DropRootLinks(st, r);
    DropNodeShape(st, DropRoot(st, r), r);
    DroppedNodeKeeps(st, DropRoot(st, r), r);
  }

  // ---------- a new root ----------

  function NewRoot(st: Rv, r: Ref, name: Fragment, strategy: nat): Rv {
    st.(nodes := st.nodes[r := Scope(name, strategy, map[[name] := NoHosts], {}, {}, {})], scopeIndex := st.scopeIndex[[name] := r])
  }

  lemma NewRootKeeps(st: Rv, r: Ref, name: Fragment, strategy: nat)
    requires Inv(st) && r !in st.nodes && [name] !in st.scopeIndex
    ensures Inv(NewRoot(st, r, name, strategy)) && SamePairs(st, NewRoot(st, r, name, strategy))
  {
    hide Links, AllSound, Indexed, Siblings, AllComplete, NewRoot;
    forall id | id in st.pubIndex ensures |id| >= 2 {
      ItemIdsAreLong(st, id);
    }
    NewRootIndexed(st, r, name, strategy);
    NewRootNodes(st, r, name, strategy);
    NewRootSiblings(st, r, name, strategy);
    NewRootPairs(st, r, name, strategy);
  }

  lemma NewRootPairs(st: Rv, r: Ref, name: Fragment, strategy: nat)
    requires Indexed(st) && r !in st.nodes && [name] !in st.scopeIndex && [name] !in st.pubIndex
    ensures SamePairs(st, NewRoot(st, r, name, strategy))
  {
    UnindexedPair(st, [name]);
  }

  lemma ItemIdsAreLong(st: Rv, id: Id)
    requires Graph(st) && id in st.pubIndex
    ensures |id| >= 2
  {
    var r := st.pubIndex[id];
    assert NodeLinks(st, r) && Sound(st, r);
  }

  lemma NewRootSiblings(st: Rv, r: Ref, name: Fragment, strategy: nat)
    requires Siblings(st) && r !in st.nodes
    ensures Siblings(NewRoot(st, r, name, strategy))
  {
  }

  lemma NewRootIndexed(st: Rv, r: Ref, name: Fragment, strategy: nat)
    requires Indexed(st) && r !in st.nodes && [name] !in st.scopeIndex && [name] !in st.pubIndex
    ensures Indexed(NewRoot(st, r, name, strategy))
  {
    var st' := NewRoot(st, r, name, strategy);
    forall q, id | q in st'.nodes && id in st'.nodes[q].ids ensures Owner(st', id, q) {
      if q != r {
        assert Owner(st, id, q);
      }
    }
  }

  lemma NewRootNodes(st: Rv, r: Ref, name: Fragment, strategy: nat)
    requires Links(st) && AllSound(st) && AllComplete(st) && r !in st.nodes
    ensures Links(NewRoot(st, r, name, strategy)) && AllSound(NewRoot(st, r, name, strategy)) && AllComplete(NewRoot(st, r, name, strategy))
  {
    var st' := NewRoot(st, r, name, strategy);
    forall n | n in st'.nodes
      ensures NodeLinks(st', n) && Sound(st', n) && Complete(st', n) && st'.nodes[n].ids != map[]
    {
      if n == r {
        assert [name] in st'.nodes[r].ids;
      } else {
        assert NodeLinks(st, n) && Sound(st, n) && Complete(st, n);
        forall g | g in st'.nodes[n].fathers ensures FatherLink(st', n, g) {
          assert FatherLink(st, n, g);
        }
        forall id | id in st'.nodes[n].ids && st.nodes[n].fathers != {} ensures FromFather(st', n, Front(id)) {
          var g :| g in st.nodes[n].fathers && g in st.nodes && Front(id) in st.nodes[g].ids;
        }
        forall g, id | g in st'.nodes[n].fathers && g in st'.nodes && id in st'.nodes[g].ids ensures Extends(st', n, id) {
          assert FatherLink(st, n, g);
          assert Extends(st, n, id);
        }
      }
    }
  }
}
