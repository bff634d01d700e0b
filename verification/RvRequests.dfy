/**
 The requests a rendezvous node serves, as functions from state to state and result code, and what
 each of them keeps and changes.  Publishing and subscribing differ only in the role they enter.
 */
module RvRequests {
  import opened RvGraph
  import opened RvPropagation
  import opened RvHosts
  import opened RvFreshness

  const SUCCESS: nat := 0
  const WRONG_IDS: nat := 1
  const STRATEGY_MISMATCH: nat := 2
  const EXISTS: nat := 3
  const FATHER_DOES_NOT_EXIST: nat := 4
  const INFO_ITEM_WITH_SAME_ID: nat := 5
  const SCOPE_DOES_NOT_EXIST: nat := 6
  const SCOPE_WITH_SAME_ID: nat := 7
  const INFO_DOES_NOT_EXIST: nat := 8
  const DOES_NOT_EXIST: nat := 9
  const UNKNOWN_REQUEST_TYPE: nat := 10

  datatype Outcome = Outcome(st: Rv, code: nat)

  /** Between requests: a sound, fully labelled graph, mirrored per host. */
  ghost predicate Valid(st: Rv) {
    Inv(st) && Mirror(st)
  }

  /** The entry (role, h, id) has been added, and nothing else. */
  ghost predicate Entered(st: Rv, st': Rv, role: Role, h: Host, id: Id) {
    forall h', role', id' :: Holds(st', role', h', id') <==> Holds(st, role', h', id') || (h' == h && role' == role && id' == id)
  }

  /** The entry (role, h, id) has been removed, and nothing else. */
  ghost predicate Removed(st: Rv, st': Rv, role: Role, h: Host, id: Id) {
    forall h', role', id' :: Holds(st', role', h', id') <==> Holds(st, role', h', id') && !(h' == h && role' == role && id' == id)
  }

  lemma IndexedScope(st: Rv, id: Id)
    requires Indexed(st) && id in st.scopeIndex
    ensures st.scopeIndex[id] in st.nodes && st.nodes[st.scopeIndex[id]].Scope? && id in st.nodes[st.scopeIndex[id]].ids
    ensures PairAt(st, id) == st.nodes[st.scopeIndex[id]].ids[id]
  {
  }

  lemma IndexedItem(st: Rv, id: Id)
    requires Indexed(st) && id in st.pubIndex
    ensures st.pubIndex[id] in st.nodes && st.nodes[st.pubIndex[id]].Item? && id in st.nodes[st.pubIndex[id]].ids
    ensures PairAt(st, id) == st.nodes[st.pubIndex[id]].ids[id]
    ensures id !in st.scopeIndex
  {
    PairOfNode(st, st.pubIndex[id], id);
  }

  lemma HoldsHere(st: Rv, role: Role, r: Ref, id: Id, h: Host)
    requires Inv(st) && r in st.nodes && id in st.nodes[r].ids
    ensures Holds(st, role, h, id) <==> h in Members(st.nodes[r].ids[id], role)
    ensures if st.nodes[r].Scope? then id in st.scopeIndex else id in st.pubIndex
  {
    hide Inv, PairAt;
    InvIndexed(st);
    PairOfNode(st, r, id);
  }

  // ---------- entering an existing node ----------

  function EnterExisting(st: Rv, role: Role, r: Ref, id: Id, h: Host): Outcome
    requires r in st.nodes && id in st.nodes[r].ids
  {
    if h in Members(st.nodes[r].ids[id], role) then Outcome(st, EXISTS) else Outcome(SetHost(st, role, r, id, h, true), SUCCESS)
  }

  lemma SetHostEnters(st: Rv, role: Role, r: Ref, id: Id, h: Host)
    requires Valid(st) && r in st.nodes && id in st.nodes[r].ids
    ensures Valid(SetHost(st, role, r, id, h, true)) && Entered(st, SetHost(st, role, r, id, h, true), role, h, id)
    ensures Valid(SetHost(st, role, r, id, h, false)) && Removed(st, SetHost(st, role, r, id, h, false), role, h, id)
  {
    hide Inv, Mirror, SetHost, Holds;
    SetHostKeeps(st, role, r, id, h, true);
    SetHostKeeps(st, role, r, id, h, false);
    assert Indexed(st) by { InvIndexed(st); }
    SetHostEntries(st, role, r, id, h, true);
    SetHostEntries(st, role, r, id, h, false);
  }

  lemma InvIndexed(st: Rv)
    requires Inv(st)
    ensures Indexed(st) && Graph(st) && Links(st)
  {
  }

  /** Setting one entry leaves every other audience alone. */
  lemma SetHostFresh(st: Rv, sent: seq<Message>, except: set<Ref>, role: Role, r: Ref, id: Id, h: Host, on: bool)
    requires Inv(st) && r in st.nodes && id in st.nodes[r].ids && Fresh(st, sent, except)
    ensures Fresh(SetHost(st, role, r, id, h, on), sent, except + TouchedBy(st, role, r))
  {
    hide Inv, Fresh, SameAudience, MembersOf;
    var st' := SetHost(st, role, r, id, h, on);
    forall i | Needs(st', i) && i !in TouchedBy(st, role, r) ensures SameAudience(st, st', i) {
      assert st'.nodes[i].Item? ==> st.nodes[i].Item?;
      SetHostTouches(st, role, r, id, h, on, i);
    }
    FreshKept(st, st', sent, except, TouchedBy(st, role, r));
  }

  // ---------- publishing or subscribing to a scope or an item ----------

  function EnterRoot(st: Rv, next: Ref, role: Role, h: Host, name: Fragment, strategy: nat): Outcome
    requires Inv(st)
  {
    if [name] !in st.scopeIndex then
      Outcome(SetHost(NewRoot(st, next, name, strategy), role, next, [name], h, true), SUCCESS)
    else
      IndexedScope(st, [name]);
      var r := st.scopeIndex[[name]];
      if st.nodes[r].strategy == strategy then EnterExisting(st, role, r, [name], h) else Outcome(st, STRATEGY_MISMATCH)
  }

  ghost function EnterScope(st: Rv, next: Ref, role: Role, h: Host, name: Fragment, prefix: Id, strategy: nat): Outcome
    requires Inv(st) && next !in st.nodes
  {
    var full := prefix + [name];
    if full in st.pubIndex then Outcome(st, INFO_ITEM_WITH_SAME_ID)
    else if prefix !in st.scopeIndex then Outcome(st, FATHER_DOES_NOT_EXIST)
    else
      IndexedScope(st, prefix);
      var f := st.scopeIndex[prefix];
      if full !in st.scopeIndex then
        if st.nodes[f].strategy == strategy then
          NewChildKeepsInv(st, f, next, true, name, strategy, prefix);
          Outcome(SetHost(NewChild(st, f, next, true, name, strategy), role, next, full, h, true), SUCCESS)
        else Outcome(st, STRATEGY_MISMATCH)
      else
        IndexedScope(st, full);
        var r := st.scopeIndex[full];
        if st.nodes[r].strategy == strategy then EnterExisting(st, role, r, full, h) else Outcome(st, STRATEGY_MISMATCH)
  }

  ghost function EnterItem(st: Rv, next: Ref, role: Role, h: Host, name: Fragment, prefix: Id, strategy: nat): Outcome
    requires Inv(st) && next !in st.nodes
  {
    var full := prefix + [name];
    if prefix !in st.scopeIndex then Outcome(st, FATHER_DOES_NOT_EXIST)
    else
      IndexedScope(st, prefix);
      var f := st.scopeIndex[prefix];
      if full !in st.pubIndex then
        if full in st.scopeIndex then Outcome(st, SCOPE_WITH_SAME_ID)
        else if st.nodes[f].strategy == strategy then
          NewChildKeepsInv(st, f, next, false, name, strategy, prefix);
          Outcome(SetHost(NewChild(st, f, next, false, name, strategy), role, next, full, h, true), SUCCESS)
        else Outcome(st, STRATEGY_MISMATCH)
      else
        IndexedItem(st, full);
        if st.nodes[f].strategy == strategy then EnterExisting(st, role, st.pubIndex[full], full, h)
        else Outcome(st, STRATEGY_MISMATCH)
  }

  /** What holds after entering: exactly the wanted entry is there, or nothing has changed. */
  ghost predicate EnterEffect(st: Rv, o: Outcome, role: Role, h: Host, full: Id, scope: bool) {
    && Valid(o.st)
    && (o.code == SUCCESS ==>
          && Entered(st, o.st, role, h, full) && !Holds(st, role, h, full)
          && (if scope then full in o.st.scopeIndex else full in o.st.pubIndex))
    && (o.code != SUCCESS ==> o.st == st)
    && (o.code == EXISTS ==> Holds(st, role, h, full))
  }

  lemma EnterExistingEffect(st: Rv, role: Role, r: Ref, full: Id, h: Host)
    requires Valid(st) && r in st.nodes && full in st.nodes[r].ids
    ensures EnterEffect(st, EnterExisting(st, role, r, full, h), role, h, full, st.nodes[r].Scope?)
  {
    hide Inv, Mirror;
    InvIndexed(st);
    PairOfNode(st, r, full);
    SetHostEnters(st, role, r, full, h);
  }

  lemma EnterNew(st: Rv, st1: Rv, role: Role, r: Ref, full: Id, h: Host)
    requires Valid(st) && Inv(st1) && SamePairs(st, st1) && r in st1.nodes && full in st1.nodes[r].ids
    requires full !in st.scopeIndex && full !in st.pubIndex
    ensures EnterEffect(st, Outcome(SetHost(st1, role, r, full, h, true), SUCCESS), role, h, full, st1.nodes[r].Scope?)
  {
    hide Inv, Mirror, Holds, PairAt, SamePairs, SameEntries, Entered, Members;
    SamePairsKeepEntries(st, st1);
    HoldsHere(st1, role, r, full, h);
    UnindexedPair(st, full);
    NobodyHolds(st, role, h, full);
    SetHostEnters(st1, role, r, full, h);
    SameThenEntered(st, st1, SetHost(st1, role, r, full, h, true), role, h, full);
  }

  lemma SameThenEntered(st: Rv, st1: Rv, st2: Rv, role: Role, h: Host, full: Id)
    requires SameEntries(st, st1) && Entered(st1, st2, role, h, full)
    ensures Entered(st, st2, role, h, full)
  {
    hide Holds;
  }

  lemma NobodyHolds(st: Rv, role: Role, h: Host, id: Id)
    requires PairAt(st, id) == NoHosts
    ensures !Holds(st, role, h, id)
  {
  }

  lemma EnterRootEffect(st: Rv, next: Ref, role: Role, h: Host, name: Fragment, strategy: nat)
    requires Valid(st) && next !in st.nodes
    ensures EnterEffect(st, EnterRoot(st, next, role, h, name, strategy), role, h, [name], true)
  {
    hide Inv, Mirror, EnterEffect, SetHost;
    InvIndexed(st);
    if [name] !in st.scopeIndex {
      NewRootKeeps(st, next, name, strategy);
      RootNotItem(st, name);
      EnterNew(st, NewRoot(st, next, name, strategy), role, next, [name], h);
    } else {
      IndexedScope(st, [name]);
      EnterExistingEffect(st, role, st.scopeIndex[[name]], [name], h);
      Unchanged(st, STRATEGY_MISMATCH, role, h, [name], true);
    }
  }

  lemma RootNotItem(st: Rv, name: Fragment)
    requires Inv(st)
    ensures [name] !in st.pubIndex
  {
    hide Inv;
    InvIndexed(st);
    forall id | id in st.pubIndex ensures |id| >= 2 {
      ItemIdsAreLong(st, id);
    }
  }

  lemma Unchanged(st: Rv, code: nat, role: Role, h: Host, full: Id, scope: bool)
    requires Valid(st) && code != SUCCESS && code != EXISTS
    ensures EnterEffect(st, Outcome(st, code), role, h, full, scope)
  {
  }

  lemma EnterScopeEffect(st: Rv, next: Ref, role: Role, h: Host, name: Fragment, prefix: Id, strategy: nat)
    requires Valid(st) && next !in st.nodes
    ensures EnterEffect(st, EnterScope(st, next, role, h, name, prefix, strategy), role, h, prefix + [name], true)
  {
    hide Inv, Mirror, EnterEffect, SetHost, NewChild, EnterExisting;
    var full := prefix + [name];
    InvIndexed(st);
    forall code | code != SUCCESS && code != EXISTS ensures EnterEffect(st, Outcome(st, code), role, h, full, true) {
      Unchanged(st, code, role, h, full, true);
    }
    if full !in st.pubIndex && prefix in st.scopeIndex {
      IndexedScope(st, prefix);
      var f := st.scopeIndex[prefix];
      if full !in st.scopeIndex {
        NewChildKeepsInv(st, f, next, true, name, strategy, prefix);
        NewChildEntries(st, f, next, true, name, strategy, prefix);
        NewChildKind(st, f, next, true, name, strategy);
        EnterNew(st, NewChild(st, f, next, true, name, strategy), role, next, full, h);
      } else {
        IndexedScope(st, full);
        EnterExistingEffect(st, role, st.scopeIndex[full], full, h);
      }
    }
  }

  lemma NewChildKind(st: Rv, f: Ref, r: Ref, scope: bool, name: Fragment, strategy: nat)
    requires f in st.nodes && st.nodes[f].Scope? && r !in st.nodes
    ensures r in NewChild(st, f, r, scope, name, strategy).nodes
    ensures NewChild(st, f, r, scope, name, strategy).nodes[r].Scope? == scope
    ensures NewChild(st, f, r, scope, name, strategy).nodes[r].fathers == {f}
  {
  }

  lemma EnterItemEffect(st: Rv, next: Ref, role: Role, h: Host, name: Fragment, prefix: Id, strategy: nat)
    requires Valid(st) && next !in st.nodes
    ensures EnterEffect(st, EnterItem(st, next, role, h, name, prefix, strategy), role, h, prefix + [name], false)
  {
    hide Inv, Mirror, EnterEffect, SetHost, NewChild, EnterExisting;
    var full := prefix + [name];
    InvIndexed(st);
    forall code | code != SUCCESS && code != EXISTS ensures EnterEffect(st, Outcome(st, code), role, h, full, false) {
      Unchanged(st, code, role, h, full, false);
    }
    if prefix in st.scopeIndex {
      IndexedScope(st, prefix);
      var f := st.scopeIndex[prefix];
      if full in st.pubIndex {
        IndexedItem(st, full);
        EnterExistingEffect(st, role, st.pubIndex[full], full, h);
      } else if full !in st.scopeIndex {
        NewChildKeepsInv(st, f, next, false, name, strategy, prefix);
        NewChildEntries(st, f, next, false, name, strategy, prefix);
        NewChildKind(st, f, next, false, name, strategy);
        EnterNew(st, NewChild(st, f, next, false, name, strategy), role, next, full, h);
      }
    }
  }

  // ---------- republishing a scope, readvertising an item ----------

  /** How republishing ends without a new link; None means the link is made. */
  datatype LinkPlan = Refuse(code: nat) | EnterAt(r: Ref) | LinkTo(f: Ref, r: Ref)

  function PlanScope(st: Rv, id: Id, prefix: Id, strategy: nat): LinkPlan
    requires Inv(st) && id != []
  {
    var full := prefix + [Last(id)];
    if full in st.pubIndex then Refuse(INFO_ITEM_WITH_SAME_ID)
    else if prefix !in st.scopeIndex then Refuse(FATHER_DOES_NOT_EXIST)
    else if id !in st.scopeIndex then Refuse(SCOPE_DOES_NOT_EXIST)
    else if full !in st.scopeIndex then
      IndexedScope(st, prefix);
      if st.nodes[st.scopeIndex[prefix]].strategy == strategy then LinkTo(st.scopeIndex[prefix], st.scopeIndex[id])
      else Refuse(STRATEGY_MISMATCH)
    else
      IndexedScope(st, full);
      if st.nodes[st.scopeIndex[full]].strategy == strategy then EnterAt(st.scopeIndex[full]) else Refuse(STRATEGY_MISMATCH)
  }

  function PlanItem(st: Rv, id: Id, prefix: Id, strategy: nat): LinkPlan
    requires Inv(st) && id != []
  {
    var full := prefix + [Last(id)];
    if full in st.scopeIndex then Refuse(SCOPE_WITH_SAME_ID)
    else if prefix !in st.scopeIndex then Refuse(FATHER_DOES_NOT_EXIST)
    else if id !in st.pubIndex then Refuse(INFO_DOES_NOT_EXIST)
    else
      IndexedScope(st, prefix);
      if st.nodes[st.scopeIndex[prefix]].strategy != strategy then Refuse(STRATEGY_MISMATCH)
      else if full !in st.pubIndex then LinkTo(st.scopeIndex[prefix], st.pubIndex[id])
      else EnterAt(st.pubIndex[full])
  }

  /** st1 is st with the planned link, all identifiers handed down. */
  ghost predicate LinkedAndPropagated(st: Rv, st1: Rv, f: Ref, r: Ref) {
    && f in st.nodes && st.nodes[f].Scope? && r in st.nodes && f != r
    && Propagated(Link(st, f, r), st1, r)
  }

  lemma PlanLink(st: Rv, id: Id, prefix: Id, plan: LinkPlan)
    requires Inv(st) && |id| >= 2 && prefix in st.scopeIndex && plan.LinkTo? && plan.f == st.scopeIndex[prefix]
    requires (id in st.scopeIndex && plan.r == st.scopeIndex[id]) || (id in st.pubIndex && plan.r == st.pubIndex[id])
    requires prefix + [Last(id)] !in st.scopeIndex && prefix + [Last(id)] !in st.pubIndex
    ensures plan.f in st.nodes && st.nodes[plan.f].Scope? && plan.r in st.nodes && st.nodes[plan.r].name == Last(id)
    ensures st.nodes[plan.r].fathers != {} && prefix in st.nodes[plan.f].ids
    ensures forall n :: n in st.nodes && plan.f in st.nodes[n].fathers ==> st.nodes[n].name != Last(id)
    ensures plan.f !in st.nodes[plan.r].fathers
  {
    hide Inv;
    InvIndexed(st);
    IndexedScope(st, prefix);
    NameIsFree(st, plan.f, prefix, Last(id));
    LongIdHasFathers(st, plan.r, id);
  }

  lemma LongIdHasFathers(st: Rv, r: Ref, id: Id)
    requires Graph(st) && ((id in st.scopeIndex && r == st.scopeIndex[id]) || (id in st.pubIndex && r == st.pubIndex[id])) && |id| >= 2
    ensures r in st.nodes && st.nodes[r].name == Last(id) && st.nodes[r].fathers != {} && id in st.nodes[r].ids
  {
    assert Sound(st, r);
  }

  lemma LinkedSamePairs(st: Rv, st': Rv, f: Ref, r: Ref)
    requires Indexed(st) && OnlyLinked(st, st', f, r)
    ensures SamePairs(st, st')
  {
    forall id ensures PairAt(st', id) == PairAt(st, id) {
      if id in st.scopeIndex {
        assert LinkedNode(st, st', f, r, st.scopeIndex[id]);
      } else if id in st.pubIndex {
        assert LinkedNode(st, st', f, r, st.pubIndex[id]);
      }
    }
  }

  /** A new father and full propagation: valid again, and no entry has changed. */
  lemma LinkedKeeps(st: Rv, st1: Rv, f: Ref, r: Ref, prefix: Id)
    requires Valid(st) && LinkedAndPropagated(st, st1, f, r) && prefix in st.nodes[f].ids && st.nodes[r].fathers != {}
    requires forall n :: n in st.nodes && f in st.nodes[n].fathers ==> st.nodes[n].name != st.nodes[r].name
    ensures Inv(st1) && SamePairs(st, st1)
    ensures r in st1.nodes && prefix + [st.nodes[r].name] in st1.nodes[r].ids && st1.nodes[r].Scope? == st.nodes[r].Scope?
  {
    hide Graph, Complete, Link, Mirror, PairAt, SamePairs, OnlyLinked;
    var mid := Link(st, f, r);
    InvIndexed(st);
    LinkKeepsGraph(st, f, r);
    LinkIsOnlyLinked(st, f, r);
    LinkedSamePairs(st, mid, f, r);
    LinkedParts(st, mid, f, r);
    PropagationRestores(mid, st1, r);
    GrowsSamePairs(mid, st1);
    SamePairsTransitive(st, mid, st1);
    NewChildCarries(mid, st1, r, f, prefix);
    assert NodeGrows(mid.nodes[r], st1.nodes[r]);
  }

  lemma LinkedParts(st: Rv, mid: Rv, f: Ref, r: Ref)
    requires OnlyLinked(st, mid, f, r) && f in st.nodes && r in st.nodes && f != r && AllComplete(st)
    ensures r in mid.nodes && f in mid.nodes && mid.nodes[f].ids == st.nodes[f].ids && f in mid.nodes[r].fathers
    ensures mid.nodes[r].name == st.nodes[r].name && mid.nodes[r].Scope? == st.nodes[r].Scope?
    ensures mid.nodes.Keys == st.nodes.Keys
    ensures forall n :: n in mid.nodes ==> mid.nodes[n].ids != map[]
  {
    hide Complete;
    assert LinkedNode(st, mid, f, r, r) && LinkedNode(st, mid, f, r, f);
    forall n | n in mid.nodes ensures mid.nodes[n].ids != map[] {
      assert LinkedNode(st, mid, f, r, n) && Complete(st, n);
    }
  }

  /** Linking and entering: the outcome of republishing or readvertising when the link is made. */
  lemma LinkEnterEffect(st: Rv, id: Id, prefix: Id, plan: LinkPlan, st1: Rv, h: Host)
    requires Valid(st) && |id| >= 2 && prefix in st.scopeIndex && plan.LinkTo? && plan.f == st.scopeIndex[prefix]
    requires (id in st.scopeIndex && plan.r == st.scopeIndex[id]) || (id in st.pubIndex && plan.r == st.pubIndex[id])
    requires prefix + [Last(id)] !in st.scopeIndex && prefix + [Last(id)] !in st.pubIndex
    requires LinkedAndPropagated(st, st1, plan.f, plan.r)
    ensures plan.r in st1.nodes && prefix + [Last(id)] in st1.nodes[plan.r].ids
    ensures Inv(st1)
    ensures EnterEffect(st, Outcome(SetHost(st1, Publisher, plan.r, prefix + [Last(id)], h, true), SUCCESS), Publisher, h,
                        prefix + [Last(id)], st.nodes[plan.r].Scope?)
  {
    hide Inv, Mirror, EnterEffect, SetHost, LinkedAndPropagated, SamePairs;
    PlanLink(st, id, prefix, plan);
    LinkedKeeps(st, st1, plan.f, plan.r, prefix);
    EnterNew(st, st1, Publisher, plan.r, prefix + [Last(id)], h);
  }

  /** A scope that gains a father changes no item's audience. */
  lemma LinkedScopeFresh(st: Rv, st1: Rv, sent: seq<Message>, except: set<Ref>, f: Ref, r: Ref)
    requires Inv(st) && LinkedAndPropagated(st, st1, f, r) && Fresh(st, sent, except)
    ensures Fresh(st1, sent, except + if st.nodes[r].Scope? then {} else {r})
  {
    hide Inv, Fresh, SameAudience, Link, Complete, Graph, MembersOf;
    var mid := Link(st, f, r);
    LinkIsOnlyLinked(st, f, r);
    var touched := if st.nodes[r].Scope? then {} else {r};
    forall i | Needs(st1, i) && i !in touched ensures SameAudience(st, st1, i) {
      assert i in mid.nodes && NodeGrows(mid.nodes[i], st1.nodes[i]);
      LinkedItem(st, mid, st1, f, r, i);
    }
    FreshKept(st, st1, sent, except, touched);
  }

  lemma LinkedItem(st: Rv, mid: Rv, st1: Rv, f: Ref, r: Ref, i: Ref)
    requires Inv(st) && OnlyLinked(st, mid, f, r) && Grows(mid, st1) && r in st.nodes && i in st1.nodes && st1.nodes[i].Item?
    requires i != r || st.nodes[r].Scope?
    ensures SameAudience(st, st1, i)
  {
    hide Inv, MembersOf;
    assert i in mid.nodes && NodeGrows(mid.nodes[i], st1.nodes[i]) && LinkedNode(st, mid, f, r, i);
    forall n | n in st.nodes ensures n in st1.nodes && SameMembers(st.nodes[n], st1.nodes[n]) {
      assert LinkedNode(st, mid, f, r, n) && NodeGrows(mid.nodes[n], st1.nodes[n]);
      GrownMembers(mid.nodes[n], st1.nodes[n]);
      SameIdsSameMembers(st.nodes[n], mid.nodes[n]);
    }
    AudienceFromNodes(st, st1, i);
  }

  // ---------- unpublishing and unsubscribing ----------

  /** r is dropped if unused: as a whole under its only father, else just the branch. */
  function Prune(st: Rv, f: Ref, r: Ref): Rv
    requires f in st.nodes && r in st.nodes && st.nodes[f].Scope?
  {
    if !Unused(st, f, r) then st
    else if |st.nodes[r].fathers| == 1 then DropNode(st, f, r)
    else DropBranch(st, f, r)
  }

  function LeaveItem(st: Rv, role: Role, h: Host, name: Fragment, prefix: Id, strategy: nat): Outcome
    requires Inv(st)
  {
    var full := prefix + [name];
    if full !in st.pubIndex then Outcome(st, INFO_DOES_NOT_EXIST)
    else
      ItemPlace(st, prefix, name);
      var f, r := st.scopeIndex[prefix], st.pubIndex[full];
      if st.nodes[f].strategy != strategy then Outcome(st, STRATEGY_MISMATCH)
      else if h !in Members(st.nodes[r].ids[full], role) then Outcome(st, DOES_NOT_EXIST)
      else Outcome(Prune(SetHost(st, role, r, full, h, false), f, r), SUCCESS)
  }

  function LeaveScope(st: Rv, role: Role, h: Host, name: Fragment, prefix: Id, strategy: nat): Outcome
    requires Inv(st)
  {
    var full := prefix + [name];
    if full !in st.scopeIndex then Outcome(st, SCOPE_DOES_NOT_EXIST)
    else
      ScopePlace(st, prefix, name);
      var r := st.scopeIndex[full];
      if st.nodes[r].strategy != strategy then Outcome(st, STRATEGY_MISMATCH)
      else if h !in Members(st.nodes[r].ids[full], role) then Outcome(st, DOES_NOT_EXIST)
      else
        Outcome(PruneScope(SetHost(st, role, r, full, h, false), prefix, r), SUCCESS)
  }

  predicate Deserted(n: Node) {
    forall id :: id in n.ids ==> n.ids[id] == NoHosts
  }

  lemma ItemPlace(st: Rv, prefix: Id, name: Fragment)
    requires Inv(st) && prefix + [name] in st.pubIndex
    ensures var r := st.pubIndex[prefix + [name]];
      && r in st.nodes && st.nodes[r].Item? && prefix + [name] in st.nodes[r].ids
      && prefix in st.scopeIndex && st.scopeIndex[prefix] in st.nodes && st.nodes[st.scopeIndex[prefix]].Scope?
      && st.scopeIndex[prefix] in st.nodes[r].fathers && st.scopeIndex[prefix] != r
      && prefix in st.nodes[st.scopeIndex[prefix]].ids
  {
    hide Graph, AllComplete;
    InvIndexed(st);
    IndexedItem(st, prefix + [name]);
    ItemIdsAreLong(st, prefix + [name]);
    FrontLast(prefix, name);
    var f := FatherOfId(st, st.pubIndex[prefix + [name]], prefix + [name]);
  }

  lemma ScopePlace(st: Rv, prefix: Id, name: Fragment)
    requires Inv(st) && prefix + [name] in st.scopeIndex
    ensures var r := st.scopeIndex[prefix + [name]];
      && r in st.nodes && st.nodes[r].Scope? && prefix + [name] in st.nodes[r].ids && st.nodes[r].name == name
      && (prefix == [] <==> st.nodes[r].fathers == {}) && (prefix in st.scopeIndex <==> prefix != [])
      && (prefix != [] ==>
            && st.scopeIndex[prefix] in st.nodes && st.nodes[st.scopeIndex[prefix]].Scope?
            && st.scopeIndex[prefix] in st.nodes[r].fathers && st.scopeIndex[prefix] != r
            && prefix in st.nodes[st.scopeIndex[prefix]].ids)
  {
    hide Graph, AllComplete;
    InvIndexed(st);
    IndexedScope(st, prefix + [name]);
    FrontLast(prefix, name);
    var r := st.scopeIndex[prefix + [name]];
    ScopeIdShape(st, r, prefix + [name]);
    EmptyNotIndexed(st);
    if prefix != [] {
      var f := FatherOfId(st, r, prefix + [name]);
      NotOwnFather(st, r);
    }
  }

  lemma ScopeIdShape(st: Rv, r: Ref, id: Id)
    requires Graph(st) && r in st.nodes && id in st.nodes[r].ids
    ensures id != [] && Last(id) == st.nodes[r].name && (|id| == 1 <==> st.nodes[r].fathers == {})
  {
    assert Sound(st, r);
  }

  lemma EmptyNotIndexed(st: Rv)
    requires Graph(st)
    ensures [] !in st.scopeIndex && [] !in st.pubIndex
  {
    hide Graph;
    if [] in st.scopeIndex || [] in st.pubIndex {
      var r := IndexedNode(st, []);
      ScopeIdShape(st, r, []);
    }
  }

  lemma PruneKeeps(st: Rv, f: Ref, r: Ref)
    requires Valid(st) && r in st.nodes && f in st.nodes && f in st.nodes[r].fathers
    requires st.nodes[r].Scope? ==> st.nodes[r].children == {} && st.nodes[r].items == {}
    ensures st.nodes[f].Scope? && Valid(Prune(st, f, r)) && SameEntries(st, Prune(st, f, r))
  {
    hide Inv, Mirror, SameEntries, DropNode, DropBranch, Unused, SamePairs;
    assert FatherLink(st, r, f) by { InvIndexed(st); ScopeOfFather(st, r, f); }
    SamePairsKeepEntries(st, st) by { SamePairsReflexive(st); }
    if Unused(st, f, r) {
      if |st.nodes[r].fathers| == 1 {
        SingletonSet(st.nodes[r].fathers, f);
        DropNodeKeeps(st, f, r);
        SamePairsKeepEntries(st, DropNode(st, f, r));
      } else {
        DropBranchKeeps(st, f, r);
        SamePairsKeepEntries(st, DropBranch(st, f, r));
      }
    }
  }

  lemma SamePairsReflexive(st: Rv)
    ensures SamePairs(st, st)
  {
  }

  lemma SingletonSet(s: set<Ref>, x: Ref)
    requires |s| == 1 && x in s
    ensures s == {x}
  {
    assert |s - {x}| == 0;
  }

  /** What holds after leaving: the entry is gone and only it, or nothing has changed. */
  ghost predicate LeaveEffect(st: Rv, o: Outcome, role: Role, h: Host, full: Id) {
    && Valid(o.st)
    && (o.code == SUCCESS ==> Removed(st, o.st, role, h, full) && Holds(st, role, h, full))
    && (o.code != SUCCESS ==> o.st == st)
    && (o.code == DOES_NOT_EXIST ==> !Holds(st, role, h, full))
  }

  lemma RemovedThenSame(st: Rv, st1: Rv, st2: Rv, role: Role, h: Host, full: Id)
    requires Removed(st, st1, role, h, full) && SameEntries(st1, st2)
    ensures Removed(st, st2, role, h, full)
  {
    hide Holds;
  }

  lemma LeaveItemEffect(st: Rv, role: Role, h: Host, name: Fragment, prefix: Id, strategy: nat)
    requires Valid(st)
    ensures LeaveEffect(st, LeaveItem(st, role, h, name, prefix, strategy), role, h, prefix + [name])
  {
    hide Inv, Mirror, Prune, Removed, SameEntries, Holds, Members;
    var full := prefix + [name];
    if full in st.pubIndex {
      ItemPlace(st, prefix, name);
      var f, r := st.scopeIndex[prefix], st.pubIndex[full];
      HoldsHere(st, role, r, full, h);
      if st.nodes[f].strategy == strategy && h in Members(st.nodes[r].ids[full], role) {
        var st1 := SetHost(st, role, r, full, h, false);
        SetHostEnters(st, role, r, full, h);
        PruneKeeps(st1, f, r);
        RemovedThenSame(st, st1, Prune(st1, f, r), role, h, full);
      }
    }
  }

  /** Unlinking a scope the host has left, when nothing hangs below it. */
  function PruneScope(st: Rv, prefix: Id, r: Ref): Rv
    requires r in st.nodes
    requires prefix in st.scopeIndex ==> st.scopeIndex[prefix] in st.nodes && st.nodes[st.scopeIndex[prefix]].Scope?
    requires st.nodes[r].Scope?
  {
    if st.nodes[r].children != {} || st.nodes[r].items != {} then st
    else if prefix in st.scopeIndex then Prune(st, st.scopeIndex[prefix], r)
    else if Deserted(st.nodes[r]) then DropRoot(st, r)
    else st
  }

  lemma PruneScopeKeeps(st: Rv, prefix: Id, name: Fragment)
    requires Valid(st) && prefix + [name] in st.scopeIndex
    ensures var r := st.scopeIndex[prefix + [name]];
      && r in st.nodes && st.nodes[r].Scope?
      && (prefix in st.scopeIndex ==> st.scopeIndex[prefix] in st.nodes && st.nodes[st.scopeIndex[prefix]].Scope?)
      && Valid(PruneScope(st, prefix, r)) && SameEntries(st, PruneScope(st, prefix, r))
  {
    hide Inv, Mirror, Prune, SameEntries, DropRoot, SamePairs;
    ScopePlace(st, prefix, name);
    var r := st.scopeIndex[prefix + [name]];
    SamePairsReflexive(st);
    SamePairsKeepEntries(st, st);
    if st.nodes[r].children == {} && st.nodes[r].items == {} {
      if prefix in st.scopeIndex {
        PruneKeeps(st, st.scopeIndex[prefix], r);
      } else if Deserted(st.nodes[r]) {
        DropRootKeeps(st, r);
        SamePairsKeepEntries(st, DropRoot(st, r));
      }
    }
  }

  lemma LeaveScopeEffect(st: Rv, role: Role, h: Host, name: Fragment, prefix: Id, strategy: nat)
    requires Valid(st)
    ensures LeaveEffect(st, LeaveScope(st, role, h, name, prefix, strategy), role, h, prefix + [name])
  {
    hide Inv, Mirror, PruneScope, Removed, SameEntries, Holds, Members;
    var full := prefix + [name];
    if full in st.scopeIndex {
      ScopePlace(st, prefix, name);
      var r := st.scopeIndex[full];
      HoldsHere(st, role, r, full, h);
      if st.nodes[r].strategy == strategy && h in Members(st.nodes[r].ids[full], role) {
        var st1 := SetHost(st, role, r, full, h, false);
        SetHostEnters(st, role, r, full, h);
        PruneScopeKeeps(st1, prefix, name);
        RemovedThenSame(st, st1, PruneScope(st1, prefix, r), role, h, full);
      }
    }
  }

  /** Somebody other than the leaving host is entered under an identifier r owes to f. */
  ghost predicate UsedByOthers(st: Rv, f: Ref, r: Ref, role: Role, h: Host, full: Id)
    requires f in st.nodes && r in st.nodes
  {
    exists h', role', id :: id in IdsVia(st, f, r) && Holds(st, role', h', id) && !(h' == h && role' == role && id == full)
  }

  lemma UsedAfterwards(st: Rv, f: Ref, r: Ref, role: Role, h: Host, full: Id)
    requires Valid(st) && r in st.nodes && f in st.nodes && f != r && f in st.nodes[r].fathers && full in st.nodes[r].ids
    ensures f in SetHost(st, role, r, full, h, false).nodes && r in SetHost(st, role, r, full, h, false).nodes
    ensures Unused(SetHost(st, role, r, full, h, false), f, r) <==> !UsedByOthers(st, f, r, role, h, full)
  {
    hide Inv, Mirror, Unused, Holds;
    var st1 := SetHost(st, role, r, full, h, false);
    SetHostEnters(st, role, r, full, h);
    InvIndexed(st1);
    assert IdsVia(st1, f, r) == IdsVia(st, f, r);
    hide SetHost;
    assert f in st1.nodes[r].fathers;
    ViaIsCarried(st1, f, r);
    UsedMeansHeld(st1, f, r);
  }

  /** After leaving, the identifier stays indexed exactly if the branch is still used by others. */
  lemma LeaveItemDrops(st: Rv, role: Role, h: Host, name: Fragment, prefix: Id, strategy: nat)
    requires Valid(st) && LeaveItem(st, role, h, name, prefix, strategy).code == SUCCESS
    ensures prefix in st.scopeIndex && prefix + [name] in st.pubIndex
    ensures st.scopeIndex[prefix] in st.nodes && st.pubIndex[prefix + [name]] in st.nodes
    ensures prefix + [name] in LeaveItem(st, role, h, name, prefix, strategy).st.pubIndex <==>
      UsedByOthers(st, st.scopeIndex[prefix], st.pubIndex[prefix + [name]], role, h, prefix + [name])
  {
    hide Inv, Mirror, Prune, Unused, UsedByOthers;
    var full := prefix + [name];
    ItemPlace(st, prefix, name);
    var f, r := st.scopeIndex[prefix], st.pubIndex[full];
    UsedAfterwards(st, f, r, role, h, full);
    SetHostEnters(st, role, r, full, h);
    ItemName(st, r, prefix, name);
    PruneIndex(SetHost(st, role, r, full, h, false), f, r, prefix, full);
  }

  lemma ItemName(st: Rv, r: Ref, prefix: Id, name: Fragment)
    requires Inv(st) && r in st.nodes && prefix + [name] in st.nodes[r].ids
    ensures st.nodes[r].name == name
  {
    FrontLast(prefix, name);
    ScopeIdShape(st, r, prefix + [name]);
  }

  lemma ViaIsCarried(st: Rv, f: Ref, r: Ref)
    requires Inv(st) && r in st.nodes && f in st.nodes && f in st.nodes[r].fathers
    ensures IdsVia(st, f, r) <= st.nodes[r].ids.Keys
  {
    assert Complete(st, r);
    forall id | id in IdsVia(st, f, r) ensures id in st.nodes[r].ids.Keys {
      var fid :| fid in st.nodes[f].ids && fid + [st.nodes[r].name] == id;
      assert Extends(st, r, fid);
    }
  }

  lemma UsedMeansHeld(st: Rv, f: Ref, r: Ref)
    requires Indexed(st) && r in st.nodes && f in st.nodes && IdsVia(st, f, r) <= st.nodes[r].ids.Keys
    ensures !Unused(st, f, r) <==> exists h, role, id :: id in IdsVia(st, f, r) && Holds(st, role, h, id)
  {
    hide Indexed, IdsVia, PairAt;
    forall id | id in IdsVia(st, f, r) ensures id in st.nodes[r].ids && PairAt(st, id) == st.nodes[r].ids[id] {
      assert id in st.nodes[r].ids.Keys;
      PairOfNode(st, r, id);
    }
    if !Unused(st, f, r) {
      var id :| id in IdsVia(st, f, r) && st.nodes[r].ids[id] != NoHosts;
      var pair := st.nodes[r].ids[id];
      if pair.pubs != {} {
        var h :| h in pair.pubs;
        assert Holds(st, Publisher, h, id);
      } else {
        assert pair.subs != {};
        var h :| h in pair.subs;
        assert Holds(st, Subscriber, h, id);
      }
    }
  }

  lemma PruneIndex(st: Rv, f: Ref, r: Ref, prefix: Id, full: Id)
    requires Inv(st) && r in st.nodes && f in st.nodes && f in st.nodes[r].fathers && st.nodes[f].Scope? && st.nodes[r].Item?
    requires prefix in st.nodes[f].ids && full == prefix + [st.nodes[r].name] && full in st.nodes[r].ids
    ensures full in Prune(st, f, r).pubIndex <==> !Unused(st, f, r)
  {
    hide AllSound, Links, Siblings, AllComplete, Unused;
    assert Owner(st, full, r);
    assert full in IdsVia(st, f, r);
  }
}
