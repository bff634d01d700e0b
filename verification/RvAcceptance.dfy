/**
 When a rendezvous node accepts a request, and with which code it refuses one, by what a caller can
 know: which identifiers are indexed, the strategies of their nodes, and who is entered.
 */
module RvAcceptance {
  import opened RvGraph
  import opened RvPropagation
  import opened RvHosts
  import opened RvFreshness
  import opened RvRequests

  /** The identifier belongs to a scope of the given strategy. */
  ghost predicate HasStrategy(st: Rv, id: Id, strategy: nat) {
    id in st.scopeIndex && st.scopeIndex[id] in st.nodes && st.nodes[st.scopeIndex[id]].strategy == strategy
  }

  /** The code of a request for a root scope. */
  ghost predicate RootCode(st: Rv, role: Role, h: Host, name: Fragment, strategy: nat, code: nat) {
    && (code == STRATEGY_MISMATCH <==> [name] in st.scopeIndex && !HasStrategy(st, [name], strategy))
    && (code == EXISTS <==> HasStrategy(st, [name], strategy) && Holds(st, role, h, [name]))
    && (code == SUCCESS <==> ([name] in st.scopeIndex ==> HasStrategy(st, [name], strategy)) && !Holds(st, role, h, [name]))
  }

  /** The code of a request for a scope below prefix; old, if there is one, is the identifier it has already. */
  ghost predicate ScopeCode(st: Rv, role: Role, h: Host, prefix: Id, name: Fragment, known: set<Id>, strategy: nat, code: nat) {
    var full := prefix + [name];
    var possible := full !in st.pubIndex && prefix in st.scopeIndex && known <= st.scopeIndex.Keys;
    var fits := HasStrategy(st, if full in st.scopeIndex then full else prefix, strategy);
    && (code == INFO_ITEM_WITH_SAME_ID <==> full in st.pubIndex)
    && (code == FATHER_DOES_NOT_EXIST <==> full !in st.pubIndex && prefix !in st.scopeIndex)
    && (code == SCOPE_DOES_NOT_EXIST <==> full !in st.pubIndex && prefix in st.scopeIndex && !(known <= st.scopeIndex.Keys))
    && (code == STRATEGY_MISMATCH <==> possible && !fits)
    && (code == EXISTS <==> possible && fits && Holds(st, role, h, full))
    && (code == SUCCESS <==> possible && fits && !Holds(st, role, h, full))
  }

  /** The code of a request for an item below prefix. */
  ghost predicate ItemCode(st: Rv, role: Role, h: Host, prefix: Id, name: Fragment, known: set<Id>, strategy: nat, code: nat) {
    var full := prefix + [name];
    var possible := full !in st.scopeIndex && prefix in st.scopeIndex && known <= st.pubIndex.Keys;
    var fits := HasStrategy(st, prefix, strategy);
    && (code == SCOPE_WITH_SAME_ID <==> full in st.scopeIndex && prefix in st.scopeIndex)
    && (code == FATHER_DOES_NOT_EXIST <==> prefix !in st.scopeIndex)
    && (code == INFO_DOES_NOT_EXIST <==> full !in st.scopeIndex && prefix in st.scopeIndex && !(known <= st.pubIndex.Keys))
    && (code == STRATEGY_MISMATCH <==> possible && !fits)
    && (code == EXISTS <==> possible && fits && Holds(st, role, h, full))
    && (code == SUCCESS <==> possible && fits && !Holds(st, role, h, full))
  }

  /** The code of a request to leave an item, or a scope. */
  ghost predicate LeaveCode(st: Rv, scope: bool, role: Role, h: Host, prefix: Id, name: Fragment, strategy: nat, code: nat) {
    var full := prefix + [name];
    var there := if scope then full in st.scopeIndex else full in st.pubIndex;
    var fits := HasStrategy(st, if scope then full else prefix, strategy);
    && (code == SCOPE_DOES_NOT_EXIST <==> scope && !there)
    && (code == INFO_DOES_NOT_EXIST <==> !scope && !there)
    && (code == STRATEGY_MISMATCH <==> there && !fits)
    && (code == DOES_NOT_EXIST <==> there && fits && !Holds(st, role, h, full))
    && (code == SUCCESS <==> there && fits && Holds(st, role, h, full))
  }

  /** The code of a request to publish or subscribe that names identifiers of an acceptable shape; several fragments name
      something that exists already. */
  ghost predicate EnterCode(st: Rv, scope: bool, role: Role, h: Host, id: Id, prefix: Id, strategy: nat, code: nat)
    requires id != []
  {
    var known := if |id| == 1 then {} else {id};
    if prefix == [] then RootCode(st, role, h, id[0], strategy, code)
    else if scope then ScopeCode(st, role, h, prefix, Last(id), known, strategy, code)
    else ItemCode(st, role, h, prefix, Last(id), known, strategy, code)
  }

  lemma ExistingCode(st: Rv, role: Role, r: Ref, id: Id, h: Host)
    requires Valid(st) && r in st.nodes && id in st.nodes[r].ids
    ensures EnterExisting(st, role, r, id, h).code == if Holds(st, role, h, id) then EXISTS else SUCCESS
  {
    hide Inv, Mirror, SetHost, Holds;
    HoldsHere(st, role, r, id, h);
  }

  lemma UnindexedHolds(st: Rv, role: Role, h: Host, id: Id)
    requires id !in st.scopeIndex && id !in st.pubIndex
    ensures !Holds(st, role, h, id)
  {
  }

  lemma EnterRootCode(st: Rv, next: Ref, role: Role, h: Host, name: Fragment, strategy: nat)
    requires Valid(st) && next !in st.nodes
    ensures RootCode(st, role, h, name, strategy, EnterRoot(st, next, role, h, name, strategy).code)
  {
    hide Inv, Mirror, SetHost, NewRoot, Holds, EnterExisting;
    InvIndexed(st);
    if [name] in st.scopeIndex {
      IndexedScope(st, [name]);
      ExistingCode(st, role, st.scopeIndex[[name]], [name], h);
    } else {
      RootNotItem(st, name);
      UnindexedHolds(st, role, h, [name]);
    }
  }

  lemma EnterScopeCode(st: Rv, next: Ref, role: Role, h: Host, name: Fragment, prefix: Id, strategy: nat)
    requires Valid(st) && next !in st.nodes
    ensures ScopeCode(st, role, h, prefix, name, {}, strategy, EnterScope(st, next, role, h, name, prefix, strategy).code)
  {
    hide Inv, Mirror, SetHost, NewChild, Holds, EnterExisting;
    InvIndexed(st);
    var full := prefix + [name];
    if full in st.scopeIndex {
      IndexedScope(st, full);
      ExistingCode(st, role, st.scopeIndex[full], full, h);
    } else if full !in st.pubIndex {
      UnindexedHolds(st, role, h, full);
    }
    if prefix in st.scopeIndex {
      IndexedScope(st, prefix);
    }
  }

  lemma EnterItemCode(st: Rv, next: Ref, role: Role, h: Host, name: Fragment, prefix: Id, strategy: nat)
    requires Valid(st) && next !in st.nodes
    ensures ItemCode(st, role, h, prefix, name, {}, strategy, EnterItem(st, next, role, h, name, prefix, strategy).code)
  {
    hide Inv, Mirror, SetHost, NewChild, Holds, EnterExisting;
    InvIndexed(st);
    var full := prefix + [name];
    if full in st.pubIndex {
      IndexedItem(st, full);
      ExistingCode(st, role, st.pubIndex[full], full, h);
    } else if full !in st.scopeIndex {
      UnindexedHolds(st, role, h, full);
    }
    if prefix in st.scopeIndex {
      IndexedScope(st, prefix);
    }
  }

  /** The code a republication ends with. */
  ghost predicate PlannedCode(st: Rv, plan: LinkPlan, h: Host, full: Id, code: nat) {
    match plan
    case Refuse(c) => code == c
    case EnterAt(r) => code == if Holds(st, Publisher, h, full) then EXISTS else SUCCESS
    case LinkTo(f, r) => code == SUCCESS
  }

  lemma PlanScopeCode(st: Rv, h: Host, id: Id, prefix: Id, strategy: nat, code: nat)
    requires Valid(st) && id != [] && PlannedCode(st, PlanScope(st, id, prefix, strategy), h, prefix + [Last(id)], code)
    ensures ScopeCode(st, Publisher, h, prefix, Last(id), {id}, strategy, code)
  {
    hide Inv, Mirror, Holds;
    InvIndexed(st);
    var full := prefix + [Last(id)];
    if full !in st.scopeIndex && full !in st.pubIndex {
      UnindexedHolds(st, Publisher, h, full);
    }
    if prefix in st.scopeIndex {
      IndexedScope(st, prefix);
    }
    if full in st.scopeIndex {
      IndexedScope(st, full);
    }
  }

  lemma PlanItemCode(st: Rv, h: Host, id: Id, prefix: Id, strategy: nat, code: nat)
    requires Valid(st) && id != [] && prefix != []
    requires PlannedCode(st, PlanItem(st, id, prefix, strategy), h, prefix + [Last(id)], code)
    ensures ItemCode(st, Publisher, h, prefix, Last(id), {id}, strategy, code)
  {
    hide Inv, Mirror, Holds;
    InvIndexed(st);
    var full := prefix + [Last(id)];
    if full in st.scopeIndex {
      PrefixClosed(st, full, |prefix|);
      assert full[..|prefix|] == prefix;
    } else if full !in st.pubIndex {
      UnindexedHolds(st, Publisher, h, full);
    }
    if prefix in st.scopeIndex {
      IndexedScope(st, prefix);
    }
  }

  /** A link joins the scope at prefix to the node known by id; otherwise the node already there is entered. */
  lemma PlannedNodes(st: Rv, id: Id, prefix: Id, strategy: nat)
    requires Inv(st) && id != []
    ensures var full := prefix + [Last(id)];
      match PlanScope(st, id, prefix, strategy)
      case LinkTo(f, r) => full !in st.scopeIndex && prefix in st.scopeIndex && f == st.scopeIndex[prefix] && id in st.scopeIndex && r == st.scopeIndex[id]
      case EnterAt(r) => full in st.scopeIndex && r == st.scopeIndex[full]
      case Refuse(code) => code != SUCCESS && code != EXISTS
    ensures var full := prefix + [Last(id)];
      match PlanItem(st, id, prefix, strategy)
      case LinkTo(f, r) => full !in st.pubIndex && prefix in st.scopeIndex && f == st.scopeIndex[prefix] && id in st.pubIndex && r == st.pubIndex[id]
      case EnterAt(r) => full in st.pubIndex && r == st.pubIndex[full]
      case Refuse(code) => code != SUCCESS && code != EXISTS
  {
    hide Inv;
  }

  lemma LeaveItemCode(st: Rv, role: Role, h: Host, name: Fragment, prefix: Id, strategy: nat)
    requires Valid(st)
    ensures LeaveCode(st, false, role, h, prefix, name, strategy, LeaveItem(st, role, h, name, prefix, strategy).code)
  {
    hide Inv, Mirror, SetHost, Holds, Prune;
    var full := prefix + [name];
    if full in st.pubIndex {
      ItemPlace(st, prefix, name);
      HoldsHere(st, role, st.pubIndex[full], full, h);
    }
  }

  lemma LeaveScopeCode(st: Rv, role: Role, h: Host, name: Fragment, prefix: Id, strategy: nat)
    requires Valid(st)
    ensures LeaveCode(st, true, role, h, prefix, name, strategy, LeaveScope(st, role, h, name, prefix, strategy).code)
  {
    hide Inv, Mirror, SetHost, Holds, PruneScope;
    var full := prefix + [name];
    if full in st.scopeIndex {
      ScopePlace(st, prefix, name);
      HoldsHere(st, role, st.scopeIndex[full], full, h);
    }
  }

  // ---------- what the nodes are ----------

  /** Every node has kept its name, its strategy and its kind. */
  ghost predicate KeepsNodes(st: Rv, st': Rv) {
    forall n :: n in st.nodes && n in st'.nodes ==>
      st'.nodes[n].name == st.nodes[n].name && st'.nodes[n].strategy == st.nodes[n].strategy && st'.nodes[n].Scope? == st.nodes[n].Scope?
  }

  /** If the identifier was free, it now belongs to a node of the requested kind, name and strategy below the given fathers. */
  ghost predicate Created(st: Rv, st': Rv, scope: bool, full: Id, fathers: set<Ref>, strategy: nat) {
    full != [] && full !in st.scopeIndex && full !in st.pubIndex ==>
      && (if scope then full in st'.scopeIndex else full in st'.pubIndex)
      && var r := if scope then st'.scopeIndex[full] else st'.pubIndex[full];
         && r in st'.nodes && r !in st.nodes && st'.nodes[r].Scope? == scope
         && st'.nodes[r].name == Last(full) && st'.nodes[r].strategy == strategy && st'.nodes[r].fathers == fathers
  }

  lemma SetHostKeepsNodes(st: Rv, role: Role, r: Ref, id: Id, h: Host, on: bool)
    requires r in st.nodes && id in st.nodes[r].ids
    ensures KeepsNodes(st, SetHost(st, role, r, id, h, on)) && SetHost(st, role, r, id, h, on).nodes.Keys == st.nodes.Keys
    ensures SetHost(st, role, r, id, h, on).scopeIndex == st.scopeIndex && SetHost(st, role, r, id, h, on).pubIndex == st.pubIndex
    ensures forall n :: n in st.nodes ==> SetHost(st, role, r, id, h, on).nodes[n].fathers == st.nodes[n].fathers
  {
  }

  lemma NewChildNodes(st: Rv, f: Ref, r: Ref, scope: bool, name: Fragment, strategy: nat)
    requires f in st.nodes && st.nodes[f].Scope? && r !in st.nodes
    ensures var st1 := NewChild(st, f, r, scope, name, strategy);
      && KeepsNodes(st, st1) && r in st1.nodes && st1.nodes[r].Scope? == scope && st1.nodes[r].name == name
      && st1.nodes[r].strategy == strategy && st1.nodes[r].fathers == {f}
  {
    hide Missing;
  }

  lemma RootAdded(st: Rv, r: Ref, name: Fragment, strategy: nat)
    requires r !in st.nodes
    ensures var st1 := NewRoot(st, r, name, strategy);
      && KeepsNodes(st, st1) && r in st1.nodes && st1.nodes[r].Scope? && st1.nodes[r].name == name && st1.nodes[r].strategy == strategy
      && st1.nodes[r].fathers == {} && [name] in st1.nodes[r].ids && [name] in st1.scopeIndex && st1.scopeIndex[[name]] == r
  {
  }

  lemma EnterRootNodes(st: Rv, next: Ref, role: Role, h: Host, name: Fragment, strategy: nat)
    requires Valid(st) && next !in st.nodes && EnterRoot(st, next, role, h, name, strategy).code == SUCCESS
    ensures KeepsNodes(st, EnterRoot(st, next, role, h, name, strategy).st)
    ensures Created(st, EnterRoot(st, next, role, h, name, strategy).st, true, [name], {}, strategy)
  {
    hide Inv, Mirror, SetHost, NewRoot;
    InvIndexed(st);
    var st1 := NewRoot(st, next, name, strategy);
    RootAdded(st, next, name, strategy);
    if [name] in st.scopeIndex {
      IndexedScope(st, [name]);
      SetHostKeepsNodes(st, role, st.scopeIndex[[name]], [name], h, true);
    } else {
      SetHostKeepsNodes(st1, role, next, [name], h, true);
    }
  }

  lemma EnterScopeNodes(st: Rv, next: Ref, role: Role, h: Host, name: Fragment, prefix: Id, strategy: nat)
    requires Valid(st) && next !in st.nodes && EnterScope(st, next, role, h, name, prefix, strategy).code == SUCCESS
    ensures prefix in st.scopeIndex && KeepsNodes(st, EnterScope(st, next, role, h, name, prefix, strategy).st)
    ensures Created(st, EnterScope(st, next, role, h, name, prefix, strategy).st, true, prefix + [name], {st.scopeIndex[prefix]}, strategy)
  {
    hide Inv, Mirror, SetHost, NewChild;
    InvIndexed(st);
    IndexedScope(st, prefix);
    var f, full := st.scopeIndex[prefix], prefix + [name];
    if full in st.scopeIndex {
      IndexedScope(st, full);
      SetHostKeepsNodes(st, role, st.scopeIndex[full], full, h, true);
    } else {
      NewChildKeepsInv(st, f, next, true, name, strategy, prefix);
      NewChildNodes(st, f, next, true, name, strategy);
      SetHostKeepsNodes(NewChild(st, f, next, true, name, strategy), role, next, full, h, true);
      OwnIndex(NewChild(st, f, next, true, name, strategy), next, full);
      FrontLast(prefix, name);
    }
  }

  lemma OwnIndex(st: Rv, r: Ref, full: Id)
    requires Inv(st) && r in st.nodes && full in st.nodes[r].ids
    ensures if st.nodes[r].Scope? then full in st.scopeIndex && st.scopeIndex[full] == r else full in st.pubIndex && st.pubIndex[full] == r
  {
    assert Owner(st, full, r);
  }

  lemma EnterItemNodes(st: Rv, next: Ref, role: Role, h: Host, name: Fragment, prefix: Id, strategy: nat)
    requires Valid(st) && next !in st.nodes && EnterItem(st, next, role, h, name, prefix, strategy).code == SUCCESS
    ensures prefix in st.scopeIndex && KeepsNodes(st, EnterItem(st, next, role, h, name, prefix, strategy).st)
    ensures Created(st, EnterItem(st, next, role, h, name, prefix, strategy).st, false, prefix + [name], {st.scopeIndex[prefix]}, strategy)
  {
    hide Inv, Mirror, SetHost, NewChild;
    InvIndexed(st);
    IndexedScope(st, prefix);
    var f, full := st.scopeIndex[prefix], prefix + [name];
    if full in st.pubIndex {
      IndexedItem(st, full);
      SetHostKeepsNodes(st, role, st.pubIndex[full], full, h, true);
    } else {
      NewChildKeepsInv(st, f, next, false, name, strategy, prefix);
      NewChildNodes(st, f, next, false, name, strategy);
      SetHostKeepsNodes(NewChild(st, f, next, false, name, strategy), role, next, full, h, true);
      OwnIndex(NewChild(st, f, next, false, name, strategy), next, full);
      FrontLast(prefix, name);
    }
  }

  /** A new node is what was asked for, below the scope at prefix; every old one keeps its name, strategy and kind. */
  ghost predicate NodeMade(st: Rv, st': Rv, scope: bool, prefix: Id, name: Fragment, strategy: nat) {
    && (prefix == [] || prefix in st.scopeIndex)
    && KeepsNodes(st, st')
    && Created(st, st', scope, prefix + [name], if prefix == [] then {} else {st.scopeIndex[prefix]}, strategy)
  }

  /** Publishing or subscribing to a root scope: the code, what it does to the entries, and to the nodes. */
  lemma RootServed(st: Rv, next: Ref, role: Role, h: Host, name: Fragment, strategy: nat)
    requires Valid(st) && next !in st.nodes
    ensures var o := EnterRoot(st, next, role, h, name, strategy);
      && RootCode(st, role, h, name, strategy, o.code) && EnterEffect(st, o, role, h, [name], true)
      && (o.code == SUCCESS ==> [name] in o.st.scopeIndex && NodeMade(st, o.st, true, [], name, strategy))
  {
    hide Inv, Mirror, EnterRoot, RootCode, KeepsNodes, Created, Entered, Holds;
    EnterRootEffect(st, next, role, h, name, strategy);
    EnterRootCode(st, next, role, h, name, strategy);
    assert [] + [name] == [name];
    if EnterRoot(st, next, role, h, name, strategy).code == SUCCESS {
      EnterRootNodes(st, next, role, h, name, strategy);
    }
  }

  /** The same for a scope below a father. */
  lemma ScopeServed(st: Rv, next: Ref, role: Role, h: Host, name: Fragment, prefix: Id, strategy: nat)
    requires Valid(st) && next !in st.nodes
    ensures var o, full := EnterScope(st, next, role, h, name, prefix, strategy), prefix + [name];
      && ScopeCode(st, role, h, prefix, name, {}, strategy, o.code) && EnterEffect(st, o, role, h, full, true)
      && (o.code == SUCCESS ==> full !in st.pubIndex && full in o.st.scopeIndex && NodeMade(st, o.st, true, prefix, name, strategy))
  {
    hide Inv, Mirror, EnterScope, KeepsNodes, Created, Entered, Holds;
    EnterScopeEffect(st, next, role, h, name, prefix, strategy);
    EnterScopeCode(st, next, role, h, name, prefix, strategy);
    InvIndexed(st);
    EmptyNotIndexed(st);
    if EnterScope(st, next, role, h, name, prefix, strategy).code == SUCCESS {
      EnterScopeNodes(st, next, role, h, name, prefix, strategy);
    }
  }

  /** The same for an item. */
  lemma ItemServed(st: Rv, next: Ref, role: Role, h: Host, name: Fragment, prefix: Id, strategy: nat)
    requires Valid(st) && next !in st.nodes
    ensures var o, full := EnterItem(st, next, role, h, name, prefix, strategy), prefix + [name];
      && ItemCode(st, role, h, prefix, name, {}, strategy, o.code) && EnterEffect(st, o, role, h, full, false)
      && (o.code == SUCCESS ==> full in o.st.pubIndex && NodeMade(st, o.st, false, prefix, name, strategy))
  {
    hide Inv, Mirror, EnterItem, KeepsNodes, Created, Entered, Holds;
    EnterItemEffect(st, next, role, h, name, prefix, strategy);
    EnterItemCode(st, next, role, h, name, prefix, strategy);
    InvIndexed(st);
    EmptyNotIndexed(st);
    if EnterItem(st, next, role, h, name, prefix, strategy).code == SUCCESS {
      EnterItemNodes(st, next, role, h, name, prefix, strategy);
    }
  }

  /** What is known by id is now known by full as well, if full was free. */
  ghost predicate AlsoKnownAs(st: Rv, st': Rv, scope: bool, id: Id, full: Id) {
    if scope then full in st'.scopeIndex && (full !in st.scopeIndex ==> id in st.scopeIndex && st'.scopeIndex[full] == st.scopeIndex[id])
    else full in st'.pubIndex && (full !in st.pubIndex ==> id in st.pubIndex && st'.pubIndex[full] == st.pubIndex[id])
  }

  // ---------- what goes when a host leaves ----------

  /** Somebody other than the leaving host is entered for r under any identifier. */
  ghost predicate KeptByOthers(st: Rv, r: Ref, role: Role, h: Host, full: Id)
    requires r in st.nodes
  {
    exists h', role', id :: id in st.nodes[r].ids && Holds(st, role', h', id) && !(h' == h && role' == role && id == full)
  }

  /** A scope a host has left stays indexed exactly if something lies below it or others use the branch; a root, if
      others are entered for it at all. */
  lemma LeaveScopeDrops(st: Rv, role: Role, h: Host, name: Fragment, prefix: Id, strategy: nat)
    requires Valid(st) && LeaveScope(st, role, h, name, prefix, strategy).code == SUCCESS
    ensures prefix + [name] in st.scopeIndex && st.scopeIndex[prefix + [name]] in st.nodes
    ensures st.nodes[st.scopeIndex[prefix + [name]]].Scope?
    ensures prefix != [] ==> prefix in st.scopeIndex && st.scopeIndex[prefix] in st.nodes
    ensures var full, r := prefix + [name], st.scopeIndex[prefix + [name]];
      full in LeaveScope(st, role, h, name, prefix, strategy).st.scopeIndex <==>
        || st.nodes[r].children != {} || st.nodes[r].items != {}
        || (if prefix == [] then KeptByOthers(st, r, role, h, full) else UsedByOthers(st, st.scopeIndex[prefix], r, role, h, full))
  {
    hide Inv, Mirror, Prune, Unused, UsedByOthers, KeptByOthers, Deserted, DropRoot, SetHost;
    var full := prefix + [name];
    ScopePlace(st, prefix, name);
    var r := st.scopeIndex[full];
    var st1 := SetHost(st, role, r, full, h, false);
    SetHostKeepsNodes(st, role, r, full, h, false);
    SetHostEnters(st, role, r, full, h);
    SetHostChildren(st, role, r, full, h);
    if st.nodes[r].children == {} && st.nodes[r].items == {} {
      if prefix == [] {
        DesertedAfterwards(st, r, role, h, full);
        RootGone(st1, r, full);
      } else {
        var f := st.scopeIndex[prefix];
        UsedAfterwards(st, f, r, role, h, full);
        assert full in st1.nodes[r].ids.Keys && prefix in st1.nodes[f].ids;
        BranchGone(st1, f, r, prefix, full);
      }
    }
  }

  lemma SetHostChildren(st: Rv, role: Role, r: Ref, id: Id, h: Host)
    requires r in st.nodes && id in st.nodes[r].ids && st.nodes[r].Scope?
    ensures var n := SetHost(st, role, r, id, h, false).nodes[r];
      && n.Scope? && n.children == st.nodes[r].children && n.items == st.nodes[r].items && n.ids.Keys == st.nodes[r].ids.Keys
      && n.name == st.nodes[r].name && n.fathers == st.nodes[r].fathers
    ensures forall n :: n in st.nodes && n != r ==> SetHost(st, role, r, id, h, false).nodes[n] == st.nodes[n]
  {
    SetHostSameKeys(st, role, r, id, h, false);
  }

  lemma DesertedAfterwards(st: Rv, r: Ref, role: Role, h: Host, full: Id)
    requires Valid(st) && r in st.nodes && full in st.nodes[r].ids && st.nodes[r].Scope?
    ensures r in SetHost(st, role, r, full, h, false).nodes
    ensures Deserted(SetHost(st, role, r, full, h, false).nodes[r]) <==> !KeptByOthers(st, r, role, h, full)
  {
    hide Inv, Mirror, Holds;
    var st1 := SetHost(st, role, r, full, h, false);
    SetHostEnters(st, role, r, full, h);
    SetHostChildren(st, role, r, full, h);
    hide SetHost;
    DesertedMeans(st1, r);
    assert forall id :: id in st1.nodes[r].ids.Keys <==> id in st.nodes[r].ids.Keys;
  }

  lemma DesertedMeans(st: Rv, r: Ref)
    requires Inv(st) && r in st.nodes
    ensures Deserted(st.nodes[r]) <==> forall h, role, id :: id in st.nodes[r].ids ==> !Holds(st, role, h, id)
  {
    hide Graph, AllComplete, PairAt;
    InvIndexed(st);
    forall id | id in st.nodes[r].ids ensures PairAt(st, id) == st.nodes[r].ids[id] {
      PairOfNode(st, r, id);
    }
    forall id | id in st.nodes[r].ids && st.nodes[r].ids[id] != NoHosts ensures exists h, role :: Holds(st, role, h, id) {
      var pair := st.nodes[r].ids[id];
      if pair.pubs != {} {
        var h :| h in pair.pubs;
        assert Holds(st, Publisher, h, id);
      } else {
        assert pair.subs != {};
        var h :| h in pair.subs;
        assert Holds(st, Subscriber, h, id);
      }
    }
  }

  lemma RootGone(st: Rv, r: Ref, full: Id)
    requires r in st.nodes && st.nodes[r].Scope? && full in st.nodes[r].ids
    ensures full !in DropRoot(st, r).scopeIndex
  {
  }

  lemma BranchGone(st: Rv, f: Ref, r: Ref, prefix: Id, full: Id)
    requires Inv(st) && r in st.nodes && st.nodes[r].Scope? && f in st.nodes && st.nodes[f].Scope? && f in st.nodes[r].fathers
    requires prefix in st.nodes[f].ids && full in st.nodes[r].ids && full == prefix + [st.nodes[r].name]
    ensures full in Prune(st, f, r).scopeIndex <==> !Unused(st, f, r)
  {
    hide AllSound, Links, Siblings, AllComplete, Unused;
    assert Owner(st, full, r);
    assert full in IdsVia(st, f, r);
  }

  /** What is dropped is node r or a part of it: every other node stays, under all its identifiers. */
  ghost predicate OthersStay(st: Rv, st': Rv, r: Ref) {
    && KeepsNodes(st, st')
    && (forall n :: n in st'.nodes ==> n in st.nodes)
    && (forall n :: n in st.nodes && n != r ==>
          n in st'.nodes && st'.nodes[n].ids.Keys == st.nodes[n].ids.Keys && st'.nodes[n].fathers == st.nodes[n].fathers)
  }

  lemma DropsOthersStay(st: Rv, st': Rv, r: Ref, gone: set<Id>)
    requires OnlyDropped(st, st', r, gone)
    ensures OthersStay(st, st', r)
  {
    forall n | n in st.nodes && n != r ensures AttachedNode(st, st', n) {
    }
  }

  lemma PruneOthersStay(st: Rv, f: Ref, r: Ref)
    requires Inv(st) && r in st.nodes && f in st.nodes && f in st.nodes[r].fathers && st.nodes[f].Scope? && f != r
    ensures OthersStay(st, Prune(st, f, r), r)
  {
    hide Inv, Unused, DropNode, DropBranch, OnlyDropped, IdsVia;
    if Unused(st, f, r) {
      DropBranchShape(st, f, r);
      DropNodeShape(st, DropNode(st, f, r), r);
      DropsOthersStay(st, DropNode(st, f, r), r, st.nodes[r].ids.Keys);
      DropsOthersStay(st, DropBranch(st, f, r), r, IdsVia(st, f, r));
    }
  }

  lemma LeftThenDropped(st: Rv, role: Role, r: Ref, id: Id, h: Host, st': Rv)
    requires r in st.nodes && id in st.nodes[r].ids && OthersStay(SetHost(st, role, r, id, h, false), st', r)
    ensures OthersStay(st, st', r)
  {
    SetHostKeepsNodes(st, role, r, id, h, false);
    SetHostSameKeys(st, role, r, id, h, false);
  }

  /** Leaving an item drops at most that item. */
  lemma LeaveItemNodes(st: Rv, role: Role, h: Host, name: Fragment, prefix: Id, strategy: nat)
    requires Valid(st) && LeaveItem(st, role, h, name, prefix, strategy).code == SUCCESS
    ensures prefix + [name] in st.pubIndex
    ensures OthersStay(st, LeaveItem(st, role, h, name, prefix, strategy).st, st.pubIndex[prefix + [name]])
  {
    hide Inv, Mirror, Prune, SetHost, OthersStay;
    var full := prefix + [name];
    ItemPlace(st, prefix, name);
    var f, r := st.scopeIndex[prefix], st.pubIndex[full];
    SetHostEnters(st, role, r, full, h);
    SetHostKeepsNodes(st, role, r, full, h, false);
    PruneOthersStay(SetHost(st, role, r, full, h, false), f, r);
    LeftThenDropped(st, role, r, full, h, Prune(SetHost(st, role, r, full, h, false), f, r));
  }

  /** Leaving a scope drops at most that scope. */
  lemma LeaveScopeNodes(st: Rv, role: Role, h: Host, name: Fragment, prefix: Id, strategy: nat)
    requires Valid(st) && LeaveScope(st, role, h, name, prefix, strategy).code == SUCCESS
    ensures prefix + [name] in st.scopeIndex
    ensures OthersStay(st, LeaveScope(st, role, h, name, prefix, strategy).st, st.scopeIndex[prefix + [name]])
  {
    hide Inv, Mirror, Prune, SetHost, OthersStay, DropRoot, Deserted;
    var full := prefix + [name];
    ScopePlace(st, prefix, name);
    var r := st.scopeIndex[full];
    var st1 := SetHost(st, role, r, full, h, false);
    SetHostEnters(st, role, r, full, h);
    SetHostKeepsNodes(st, role, r, full, h, false);
    SameOthersStay(st1, r);
    if prefix != [] {
      PruneOthersStay(st1, st.scopeIndex[prefix], r);
    }
    DropNodeShape(st1, DropRoot(st1, r), r);
    DropsOthersStay(st1, DropRoot(st1, r), r, st1.nodes[r].ids.Keys);
    LeftThenDropped(st, role, r, full, h, LeaveScope(st, role, h, name, prefix, strategy).st);
  }

  lemma SameOthersStay(st: Rv, r: Ref)
    ensures OthersStay(st, st, r)
  {
  }
}
