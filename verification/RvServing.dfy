/**
 What the rendezvous node sends while it serves a request, and why the last message about every item
 stays current: a freshness lemma for each elementary change.
 */
module RvServing {
  import opened RvGraph
  import opened RvPropagation
  import opened RvHosts
  import opened RvFreshness
  import opened RvRequests

  /** order lists s, each element once. */
  ghost predicate Enumerates(order: seq<Ref>, s: set<Ref>) {
    |order| == |s| && forall x :: x in s <==> x in order
  }

  lemma EnumeratesMore(order: seq<Ref>, s: set<Ref>, x: Ref)
    requires Enumerates(order, s) && x !in s
    ensures Enumerates(order + [x], s + {x})
  {
  }

  /** A notice about a scope goes to the local proxy only, or to all subscribers if there are any. */
  function Notice(published: bool, ids: set<Id>, strategy: nat, subs: set<Host>, localProxy: Host): seq<Message> {
    if (if strategy == NODE_LOCAL then localProxy in subs else subs != {}) then [ScopeNotice(published, ids, strategy, subs)] else []
  }

  lemma NoticeFresh(st: Rv, sent: seq<Message>, except: set<Ref>, msgs: seq<Message>)
    requires Fresh(st, sent, except) && (msgs == [] || (|msgs| == 1 && msgs[0].ScopeNotice?))
    ensures Fresh(st, sent + msgs, except)
  {
    if msgs == [] {
      assert sent + msgs == sent;
    } else {
      assert msgs == [msgs[0]];
      NoticeKeepsFresh(st, sent, except, msgs[0]);
    }
  }

  /** The subscopes in the given order, each made known to one host. */
  function ScopeNotices(st: Rv, order: seq<Ref>, h: Host, localProxy: Host): seq<Message>
    requires forall c :: c in order ==> c in st.nodes
  {
    if order == [] then []
    else
      var c := order[|order| - 1];
      ScopeNotices(st, order[..|order| - 1], h, localProxy) + Notice(true, st.nodes[c].ids.Keys, st.nodes[c].strategy, {h}, localProxy)
  }

  /** The items in the given order, each announced with its audience. */
  function Announcements(st: Rv, order: seq<Ref>): seq<Message>
    requires forall i :: i in order ==> i in st.nodes
  {
    if order == [] then []
    else Announcements(st, order[..|order| - 1]) + Announce(st, order[|order| - 1], Audience(st, order[|order| - 1]))
  }

  lemma ScopeNoticesMore(st: Rv, order: seq<Ref>, c: Ref, h: Host, localProxy: Host)
    requires c in st.nodes && forall x :: x in order ==> x in st.nodes
    ensures ScopeNotices(st, order + [c], h, localProxy)
      == ScopeNotices(st, order, h, localProxy) + Notice(true, st.nodes[c].ids.Keys, st.nodes[c].strategy, {h}, localProxy)
  {
    assert (order + [c])[..|order|] == order;
  }

  lemma AnnouncementsMore(st: Rv, order: seq<Ref>, i: Ref)
    requires i in st.nodes && forall x :: x in order ==> x in st.nodes
    ensures Announcements(st, order + [i]) == Announcements(st, order) + Announce(st, i, Audience(st, i))
  {
    assert (order + [i])[..|order|] == order;
  }

  /** News: every item of r is announced, in some order. */
  ghost predicate AllAnnounced(st: Rv, r: Ref, news: seq<Message>) {
    r in st.nodes && st.nodes[r].Scope?
    && exists order: seq<Ref> {:trigger Enumerates(order, st.nodes[r].items)} :: Enumerates(order, st.nodes[r].items)
         && (forall i :: i in order ==> i in st.nodes) && news == Announcements(st, order)
  }

  /** News: a new subscriber h of r learns of r's subscopes. */
  ghost predicate AllNoticed(st: Rv, r: Ref, h: Host, localProxy: Host, news: seq<Message>) {
    r in st.nodes && st.nodes[r].Scope?
    && exists order: seq<Ref> {:trigger Enumerates(order, st.nodes[r].children)} :: Enumerates(order, st.nodes[r].children)
         && (forall c :: c in order ==> c in st.nodes) && news == ScopeNotices(st, order, h, localProxy)
  }

  /** News of a subscription to an existing scope: first its subscopes, then its items. */
  ghost predicate Briefed(st: Rv, r: Ref, h: Host, localProxy: Host, news: seq<Message>) {
    exists k {:trigger news[..k]} :: 0 <= k <= |news| && AllNoticed(st, r, h, localProxy, news[..k]) && AllAnnounced(st, r, news[k..])
  }

  /** What is sent when a scope may be pruned: all its identifiers, or with further fathers just the one. */
  function PruneNotice(st: Rv, prefix: Id, full: Id, r: Ref, localProxy: Host): seq<Message>
    requires r in st.nodes && st.nodes[r].Scope?
    requires prefix in st.scopeIndex ==> st.scopeIndex[prefix] in st.nodes
  {
    if st.nodes[r].children != {} || st.nodes[r].items != {} || prefix !in st.scopeIndex then []
    else
      var f := st.scopeIndex[prefix];
      if !Unused(st, f, r) then []
      else Notice(false, if |st.nodes[r].fathers| == 1 then st.nodes[r].ids.Keys else {full},
                  st.nodes[r].strategy, MembersOf(st.nodes[f], Subscriber), localProxy)
  }

  // ---------- freshness, change by change ----------

  lemma NewRootFresh(st: Rv, sent: seq<Message>, except: set<Ref>, r: Ref, name: Fragment, strategy: nat)
    requires Inv(st) && r !in st.nodes && Fresh(st, sent, except)
    ensures Fresh(NewRoot(st, r, name, strategy), sent, except)
  {
    hide Inv, Fresh, SameAudience, MembersOf;
    var st' := NewRoot(st, r, name, strategy);
    forall i | Needs(st', i) && i !in {} ensures SameAudience(st, st', i) {
      assert AttachedNode(st, st', i);
      AttachedAudience(st, st', i);
    }
    FreshKept(st, st', sent, except, {});
    assert except + {} == except;
  }

  /** An item nobody publishes needs no message. */
  lemma UnpublishedFresh(st: Rv, sent: seq<Message>, except: set<Ref>, r: Ref)
    requires Fresh(st, sent, except + {r}) && (r in st.nodes ==> MembersOf(st.nodes[r], Publisher) == {})
    ensures Fresh(st, sent, except)
  {
  }

  lemma FreshWeaker(st: Rv, sent: seq<Message>, except: set<Ref>, except': set<Ref>)
    requires Fresh(st, sent, except) && except <= except'
    ensures Fresh(st, sent, except')
  {
    hide FreshItem;
  }

  /** Pruning touches r only, and r only if it survives as an item. */
  lemma PruneFresh(st: Rv, sent: seq<Message>, except: set<Ref>, f: Ref, r: Ref)
    requires Inv(st) && r in st.nodes && f in st.nodes && st.nodes[f].Scope? && f in st.nodes[r].fathers && Fresh(st, sent, except)
    requires st.nodes[r].Scope? ==> st.nodes[r].children == {} && st.nodes[r].items == {}
    ensures Fresh(Prune(st, f, r), sent, except + {r})
    ensures st.nodes[r].Scope? || !Unused(st, f, r) || |st.nodes[r].fathers| == 1 ==> Fresh(Prune(st, f, r), sent, except)
  {
    hide Inv, Fresh, Unused, DropNode, DropBranch, OnlyDropped, NoChildren;
    NotOwnFather(st, r);
    InvIndexed(st);
    LeafHasNoChildren(st, r);
    if !Unused(st, f, r) {
      FreshWeaker(st, sent, except, except + {r});
    } else if |st.nodes[r].fathers| == 1 {
      DropNodeShape(st, DropNode(st, f, r), r);
      DroppedFresh(st, DropNode(st, f, r), sent, except, r, st.nodes[r].ids.Keys);
    } else {
      DropBranchShape(st, f, r);
      DropBranchKind(st, f, r);
      DroppedFresh(st, DropBranch(st, f, r), sent, except, r, IdsVia(st, f, r));
    }
  }

  lemma DropBranchKind(st: Rv, f: Ref, r: Ref)
    requires r in st.nodes && f in st.nodes && f != r && st.nodes[f].Scope?
    ensures r in DropBranch(st, f, r).nodes && DropBranch(st, f, r).nodes[r].Scope? == st.nodes[r].Scope?
  {
  }

  lemma DropRootFresh(st: Rv, sent: seq<Message>, except: set<Ref>, r: Ref)
    requires Inv(st) && r in st.nodes && st.nodes[r].Scope? && st.nodes[r].children == {} && st.nodes[r].items == {}
    requires Fresh(st, sent, except)
    ensures Fresh(DropRoot(st, r), sent, except)
  {
    hide Inv, Fresh, DropRoot, OnlyDropped, NoChildren;
    InvIndexed(st);
    LeafHasNoChildren(st, r);
    DropNodeShape(st, DropRoot(st, r), r);
    DroppedFresh(st, DropRoot(st, r), sent, except, r, st.nodes[r].ids.Keys);
  }

  // ---------- unpublishing everything below a scope ----------

  /** Nothing but the given items has changed, except that scopes may have lost some of them. */
  ghost predicate ItemFrame(st: Rv, st': Rv, s: set<Ref>) {
    && st'.scopeIndex == st.scopeIndex
    && (forall n :: n in st'.nodes ==> n in st.nodes && st'.nodes[n].ids.Keys <= st.nodes[n].ids.Keys)
    && (forall n {:trigger ItemFrameNode(st, st', s, n)} :: n in st.nodes && n !in s ==> ItemFrameNode(st, st', s, n))
  }

  ghost predicate ItemFrameNode(st: Rv, st': Rv, s: set<Ref>, n: Ref) {
    && n in st.nodes && n in st'.nodes
    && if st.nodes[n].Item? then st'.nodes[n] == st.nodes[n]
       else
         && st'.nodes[n].Scope? && st'.nodes[n].name == st.nodes[n].name && st'.nodes[n].strategy == st.nodes[n].strategy
         && st'.nodes[n].ids == st.nodes[n].ids && st'.nodes[n].fathers == st.nodes[n].fathers
         && st'.nodes[n].children == st.nodes[n].children
         && st.nodes[n].items - s <= st'.nodes[n].items <= st.nodes[n].items
  }

  lemma FrameNone(st: Rv)
    ensures ItemFrame(st, st, {})
  {
    forall n | n in st.nodes ensures ItemFrameNode(st, st, {}, n) {
    }
  }

  lemma FrameStep(st: Rv, st1: Rv, st2: Rv, s: set<Ref>, i: Ref)
    requires ItemFrame(st, st1, s) && (st2 == st1 || ItemFrame(st1, st2, {i}))
    ensures ItemFrame(st, st2, s + {i})
  {
    forall n | n in st2.nodes ensures n in st.nodes && st2.nodes[n].ids.Keys <= st.nodes[n].ids.Keys {
      assert n in st1.nodes && st2.nodes[n].ids.Keys <= st1.nodes[n].ids.Keys;
    }
    forall n | n in st.nodes && n !in s + {i} ensures ItemFrameNode(st, st2, s + {i}, n) {
      assert ItemFrameNode(st, st1, s, n);
      if st2 != st1 {
        assert ItemFrameNode(st1, st2, {i}, n);
      }
    }
  }

  lemma LeaveItemFrame(st: Rv, role: Role, h: Host, name: Fragment, prefix: Id, strategy: nat)
    requires Inv(st) && LeaveItem(st, role, h, name, prefix, strategy).code == SUCCESS
    ensures prefix + [name] in st.pubIndex
    ensures ItemFrame(st, LeaveItem(st, role, h, name, prefix, strategy).st, {st.pubIndex[prefix + [name]]})
  {
    hide Inv, Unused;
    ItemPlace(st, prefix, name);
    var st' := LeaveItem(st, role, h, name, prefix, strategy).st;
    var r := st.pubIndex[prefix + [name]];
    assert st.nodes[r].Item?;
    forall n | n in st'.nodes ensures n in st.nodes && st'.nodes[n].ids.Keys <= st.nodes[n].ids.Keys {
    }
    forall n | n in st.nodes && n !in {r} ensures ItemFrameNode(st, st', {r}, n) {
    }
  }

  /** The identifiers scope r gives the items in done, and those in part it gives item i. */
  ghost function IdsBelow(st: Rv, r: Ref, done: set<Ref>, i: Ref, part: set<Id>): set<Id>
    requires r in st.nodes && st.nodes[r].Scope?
  {
    set j, id | j in st.nodes[r].items && j in st.nodes && id in st.nodes[r].ids && (j in done || (j == i && id in part)) ::
      id + [st.nodes[j].name]
  }

  lemma IdsBelowStep(st: Rv, r: Ref, done: set<Ref>, i: Ref, part: set<Id>, id: Id)
    requires r in st.nodes && st.nodes[r].Scope? && i in st.nodes[r].items && i in st.nodes && id in st.nodes[r].ids
    ensures IdsBelow(st, r, done, i, part + {id}) == IdsBelow(st, r, done, i, part) + {id + [st.nodes[i].name]}
  {
  }

  /** Every item of r, unpublished under every identifier r gives it. */
  ghost predicate ItemsUnpublished(st: Rv, st': Rv, h: Host, r: Ref) {
    && r in st.nodes && st.nodes[r].Scope?
    && Unpublished(st, st', h, IdsBelow(st, r, st.nodes[r].items, r, {})) && ItemFrame(st, st', st.nodes[r].items)
  }

  /** An identifier scope r gives one of its items belongs to that item, in st and as long as it is indexed. */
  lemma BelowBelongs(st: Rv, st': Rv, s: set<Ref>, r: Ref, i: Ref, id: Id)
    requires Inv(st) && Inv(st') && ItemFrame(st, st', s) && r in st.nodes && st.nodes[r].Scope?
    requires i in st.nodes[r].items && id in st.nodes[r].ids
    ensures i in st.nodes && st.nodes[i].Item?
    ensures id in st'.scopeIndex && st'.scopeIndex[id] == r && id + [st.nodes[i].name] !in st'.scopeIndex
    ensures id + [st.nodes[i].name] in st'.pubIndex ==> st'.pubIndex[id + [st.nodes[i].name]] == i
  {
    hide AllSound, Siblings;
    assert NodeLinks(st, r) && Complete(st, i);
    assert Extends(st, i, id);
    var full := id + [st.nodes[i].name];
    assert Owner(st, full, i) && Owner(st, id, r);
    if full in st'.pubIndex {
      var q := st'.pubIndex[full];
      assert full in st'.nodes[q].ids.Keys;
      assert full in st.nodes[q].ids.Keys;
      assert Owner(st, full, q);
    }
  }

  /** Host h no longer publishes the identifiers gone, and nothing else has changed. */
  ghost predicate Unpublished(st: Rv, st': Rv, h: Host, gone: set<Id>) {
    forall h', role', id' :: Holds(st', role', h', id') <==>
      Holds(st, role', h', id') && !(h' == h && role' == Publisher && id' in gone)
  }

  lemma UnpublishedNone(st: Rv, h: Host)
    ensures Unpublished(st, st, h, {})
  {
  }

  lemma UnpublishedMore(st: Rv, st1: Rv, o: Outcome, h: Host, gone: set<Id>, id: Id)
    requires Unpublished(st, st1, h, gone)
    requires LeaveEffect(st1, o, Publisher, h, id) && (o.code != SUCCESS ==> !Holds(st1, Publisher, h, id))
    ensures Unpublished(st, o.st, h, gone + {id})
  {
    hide Valid, Holds;
  }

  lemma LeaveItemRefused(st: Rv, h: Host, name: Fragment, prefix: Id, strategy: nat)
    requires Valid(st) && prefix in st.scopeIndex && st.scopeIndex[prefix] in st.nodes
    requires st.nodes[st.scopeIndex[prefix]].strategy == strategy && prefix + [name] !in st.scopeIndex
    requires LeaveItem(st, Publisher, h, name, prefix, strategy).code != SUCCESS
    ensures !Holds(st, Publisher, h, prefix + [name])
  {
    hide Inv, Mirror, Prune;
    var full := prefix + [name];
    if full in st.pubIndex {
      ItemPlace(st, prefix, name);
      HoldsHere(st, Publisher, st.pubIndex[full], full, h);
    } else {
      UnindexedPair(st, full);
    }
  }

  // ---------- the one branch deletion that is not announced ----------

  /** The subscribers of item i that do not count through father f alone. */
  function OtherAudience(st: Rv, f: Ref, i: Ref): set<Host>
    requires i in st.nodes
  {
    MembersOf(st.nodes[i], Subscriber)
    + set g, h | g in st.nodes[i].fathers && g != f && g in st.nodes && h in MembersOf(st.nodes[g], Subscriber) :: h
  }

  /** What the item was last announced with still holds once it has lost father f. */
  predicate SurvivesDrop(st: Rv, f: Ref, i: Ref)
    requires f in st.nodes && i in st.nodes
  {
    if st.nodes[i].strategy == NODE_LOCAL then MembersOf(st.nodes[f], Subscriber) == {} || OtherAudience(st, f, i) != {}
    else MembersOf(st.nodes[f], Subscriber) <= OtherAudience(st, f, i)
  }

  lemma DroppedAudienceIs(st: Rv, f: Ref, i: Ref)
    requires Inv(st) && i in st.nodes && st.nodes[i].Item? && f in st.nodes[i].fathers && f in st.nodes && Unused(st, f, i)
    ensures f != i && st.nodes[f].Scope? && i in DropBranch(st, f, i).nodes
    ensures DropBranch(st, f, i).nodes[i].Item? && DropBranch(st, f, i).nodes[i].strategy == st.nodes[i].strategy
    ensures SameMembers(st.nodes[i], DropBranch(st, f, i).nodes[i])
    ensures Audience(DropBranch(st, f, i), i) == OtherAudience(st, f, i)
    ensures Audience(st, i) == OtherAudience(st, f, i) + MembersOf(st.nodes[f], Subscriber)
  {
    hide Indexed, AllSound, Siblings, AllComplete, MembersOf, SameMembers;
    assert NodeLinks(st, i);
    assert FatherLink(st, i, f);
    var st' := DropBranch(st, f, i);
    assert st'.nodes[i].ids == st.nodes[i].ids - IdsVia(st, f, i);
    EmptyPairsSameMembers(st.nodes[i], st'.nodes[i]);
    SameMembersAt(st.nodes[i], st'.nodes[i], Subscriber);
    forall g | g in st.nodes && g != i ensures g in st'.nodes && MembersOf(st'.nodes[g], Subscriber) == MembersOf(st.nodes[g], Subscriber) {
      SameIdsSameMembers(st.nodes[g], st'.nodes[g]);
      SameMembersAt(st.nodes[g], st'.nodes[g], Subscriber);
    }
    assert i !in st.nodes[i].fathers by {
      NotOwnFather(st, i);
    }
  }

  lemma SameMembersAt(n: Node, n': Node, role: Role)
    requires SameMembers(n, n')
    ensures MembersOf(n', role) == MembersOf(n, role)
  {
  }

  /** Announced first and pruned afterwards: the announcement stays current exactly if f's subscribers still count. */
  lemma AnnouncedThenDropped(st: Rv, sent: seq<Message>, f: Ref, i: Ref)
    requires Inv(st) && Needs(st, i) && f in st.nodes[i].fathers && f in st.nodes && st.nodes[f].Scope? && Unused(st, f, i)
    ensures i in DropBranch(st, f, i).nodes && Needs(DropBranch(st, f, i), i)
    ensures FreshItem(DropBranch(st, f, i), sent + Announce(st, i, Audience(st, i)), i) <==> SurvivesDrop(st, f, i)
  {
    hide Inv, DropBranch, Unused, MembersOf, Audience, OtherAudience, SameMembers;
    DroppedAudienceIs(st, f, i);
    SameMembersAt(st.nodes[i], DropBranch(st, f, i).nodes[i], Publisher);
    LastAboutAppend(sent, Announce(st, i, Audience(st, i))[0], i);
    assert Announce(st, i, Audience(st, i)) == [Announce(st, i, Audience(st, i))[0]];
  }

  /** With h's subscription to the identifier erased. */
  function Unsubscribed(st: Rv, h: Host, full: Id): Rv {
    if full in st.pubIndex && st.pubIndex[full] in st.nodes && full in st.nodes[st.pubIndex[full]].ids
    then SetHost(st, Subscriber, st.pubIndex[full], full, h, false) else st
  }

  /** The item that has lost the identifier but still exists. */
  function BranchLost(st: Rv, st': Rv, full: Id): set<Ref> {
    if full in st.pubIndex && full !in st'.pubIndex && st.pubIndex[full] in st'.nodes then {st.pubIndex[full]} else {}
  }

  /** That item, unless its announcement before survives the loss. */
  function Outdated(mid: Rv, st': Rv, prefix: Id, full: Id): set<Ref> {
    set i | i in BranchLost(mid, st', full)
      && !(i in mid.nodes && prefix in mid.scopeIndex && mid.scopeIndex[prefix] in mid.nodes && SurvivesDrop(mid, mid.scopeIndex[prefix], i))
  }

  lemma NotSurvived(st: Rv, sent: seq<Message>, f: Ref, i: Ref)
    requires Inv(st) && i in st.nodes && st.nodes[i].Item? && f in st.nodes[i].fathers && f in st.nodes && st.nodes[f].Scope? && Unused(st, f, i)
    requires i in DropBranch(st, f, i).nodes && Needs(DropBranch(st, f, i), i)
    requires !FreshItem(DropBranch(st, f, i), sent + Announce(st, i, Audience(st, i)), i)
    ensures !SurvivesDrop(st, f, i)
  {
    hide Inv, DropBranch, Unused, MembersOf, Audience, OtherAudience, SameMembers, FreshItem, SurvivesDrop, Announce;
    DroppedAudienceIs(st, f, i);
    SameMembersAt(st.nodes[i], DropBranch(st, f, i).nodes[i], Publisher);
    AnnouncedThenDropped(st, sent, f, i);
  }

  /** Item 2 lies below the root scopes 0 and 1; host 5 subscribes to scope 0, host 7 to the item there, host 6 publishes below 1. */
  function Example(): Rv {
    Rv(map[0 := Scope(10, DOMAIN_LOCAL, map[AtFirst := HostPair({}, {5})], {}, {}, {2}),
           1 := Scope(11, DOMAIN_LOCAL, map[AtSecond := HostPair({}, {})], {}, {}, {2}),
           2 := Item(12, DOMAIN_LOCAL, map[ItemAtFirst := HostPair({}, {7}), ItemAtSecond := HostPair({6}, {})], {0, 1})],
       map[AtFirst := 0, AtSecond := 1], map[ItemAtFirst := 2, ItemAtSecond := 2],
       map[5 := HostRecord({}, {}, {AtFirst}, {}), 6 := HostRecord({}, {ItemAtSecond}, {}, {}), 7 := HostRecord({}, {}, {}, {ItemAtFirst})])
  }

  const AtFirst: Id := [10]
  const AtSecond: Id := [11]
  const ItemAtFirst: Id := [10, 12]
  const ItemAtSecond: Id := [11, 12]

  lemma ExampleIds()
    ensures AtFirst != AtSecond && ItemAtFirst != ItemAtSecond && |AtFirst| == |AtSecond| == 1 && |ItemAtFirst| == |ItemAtSecond| == 2
    ensures AtFirst + [12] == ItemAtFirst && AtSecond + [12] == ItemAtSecond
    ensures Front(ItemAtFirst) == AtFirst && Front(ItemAtSecond) == AtSecond && Last(ItemAtFirst) == Last(ItemAtSecond) == 12
    ensures Last(AtFirst) == 10 && Last(AtSecond) == 11
    ensures Example().nodes.Keys == {0, 1, 2} && Example().nodes[0].ids.Keys == {AtFirst} && Example().nodes[1].ids.Keys == {AtSecond}
    ensures Example().nodes[2].ids.Keys == {ItemAtFirst, ItemAtSecond}
  {
    assert AtFirst[0] != AtSecond[0] && ItemAtFirst[0] != ItemAtSecond[0];
  }

  lemma ExampleIndexed()
    ensures Indexed(Example())
  {
    hide AtFirst, AtSecond, ItemAtFirst, ItemAtSecond;
    ExampleIds();
    var st := Example();
    assert st.scopeIndex == map[AtFirst := 0, AtSecond := 1];
    assert st.pubIndex == map[ItemAtFirst := 2, ItemAtSecond := 2];
    forall r, id | r in st.nodes && id in st.nodes[r].ids ensures Owner(st, id, r) {
      assert id in st.nodes[r].ids.Keys;
    }
  }

  lemma ExampleParts()
    ensures var st := Example();
      && st.nodes.Keys == {0, 1, 2}
      && st.nodes[0].Scope? && st.nodes[1].Scope? && st.nodes[2].Item?
      && st.nodes[0].fathers == st.nodes[1].fathers == {} && st.nodes[2].fathers == {0, 1}
      && st.nodes[0].children == st.nodes[1].children == {} && st.nodes[0].items == st.nodes[1].items == {2}
  {
  }

  lemma ExampleLinks()
    ensures Links(Example()) && Siblings(Example())
  {
    hide Example;
    ExampleParts();
    var st := Example();
    forall r | r in st.nodes ensures NodeLinks(st, r) {
      assert r == 0 || r == 1 || r == 2;
    }
  }

  lemma ExampleFathers()
    ensures 2 in Example().nodes && FromFather(Example(), 2, AtFirst) && FromFather(Example(), 2, AtSecond)
  {
    hide Example, AtFirst, AtSecond;
    ExampleParts();
    ExampleIds();
    var st := Example();
    assert 0 in st.nodes[2].fathers && AtFirst in st.nodes[0].ids.Keys;
    assert 1 in st.nodes[2].fathers && AtSecond in st.nodes[1].ids.Keys;
  }

  lemma ExampleInv()
    ensures Inv(Example())
  {
    hide Links, Indexed, Siblings, Example, Sound, Complete, FromFather;
    ExampleLinks();
    ExampleFathers();
    ExampleIndexed();
    forall r | r in Example().nodes ensures Sound(Example(), r) && Complete(Example(), r) && Example().nodes[r].ids != map[] {
      ExampleNode(r);
    }
  }

  lemma ExampleMirror()
    ensures Mirror(Example())
  {
    hide AtFirst, AtSecond, ItemAtFirst, ItemAtSecond;
    ExampleIds();
    var st := Example();
    forall h, role, id
      ensures id in Listed(Record(st, h), role, true) <==> id in st.scopeIndex && Holds(st, role, h, id)
      ensures id in Listed(Record(st, h), role, false) <==> id in st.pubIndex && Holds(st, role, h, id)
    {
    }
  }

  lemma ExampleNode(r: Ref)
    requires r in Example().nodes && FromFather(Example(), 2, AtFirst) && FromFather(Example(), 2, AtSecond)
    ensures Sound(Example(), r) && Complete(Example(), r) && Example().nodes[r].ids != map[]
  {
    hide AtFirst, AtSecond, ItemAtFirst, ItemAtSecond, FromFather, Example, Sound, Complete;
    ExampleIds();
    ExampleSound(r);
    ExampleComplete(r);
    assert Example().nodes[r].ids.Keys != {};
  }

  lemma ExampleSound(r: Ref)
    requires r in Example().nodes && FromFather(Example(), 2, AtFirst) && FromFather(Example(), 2, AtSecond)
    ensures Sound(Example(), r)
  {
    hide AtFirst, AtSecond, ItemAtFirst, ItemAtSecond, FromFather;
    ExampleIds();
    forall id | id in Example().nodes[r].ids
      ensures id != [] && Last(id) == Example().nodes[r].name
      ensures if Example().nodes[r].fathers == {} then |id| == 1 else |id| >= 2 && FromFather(Example(), r, Front(id))
    {
      assert id in Example().nodes[r].ids.Keys;
    }
  }

  lemma ExampleComplete(r: Ref)
    requires r in Example().nodes
    ensures Complete(Example(), r)
  {
    hide AtFirst, AtSecond, ItemAtFirst, ItemAtSecond, Example;
    ExampleIds();
    ExampleParts();
    ExampleNames();
    var st := Example();
    forall f, id | f in st.nodes[r].fathers && f in st.nodes && id in st.nodes[f].ids ensures Extends(st, r, id) {
      assert id in st.nodes[f].ids.Keys;
      assert id + [12] in st.nodes[r].ids.Keys;
    }
    if st.nodes[r].fathers == {} {
      assert [st.nodes[r].name] == (if r == 0 then AtFirst else AtSecond);
      assert [st.nodes[r].name] in st.nodes[r].ids.Keys;
    }
  }

  lemma ExampleNames()
    ensures 0 in Example().nodes && Example().nodes[0].name == 10 && AtFirst == [10]
    ensures 1 in Example().nodes && Example().nodes[1].name == 11 && AtSecond == [11]
    ensures 2 in Example().nodes && Example().nodes[2].name == 12
  {
  }

  lemma ExampleMid(mid: Rv)
    requires ItemAtFirst in Example().nodes[2].ids && mid == SetHost(Example(), Subscriber, 2, ItemAtFirst, 7, false)
    ensures 2 in mid.nodes && 0 in mid.nodes && mid.nodes[0].Scope? && mid.nodes[2].strategy == DOMAIN_LOCAL && mid.nodes[2].fathers == {0, 1}
    ensures MembersOf(mid.nodes[2], Publisher) != {}
    ensures Unused(mid, 0, 2) && !SurvivesDrop(mid, 0, 2)
  {
    hide AtFirst, AtSecond, ItemAtFirst, ItemAtSecond;
    ExampleIds();
    assert mid.nodes[2].ids[ItemAtFirst] == NoHosts;
    assert ItemAtSecond in mid.nodes[2].ids && 6 in Members(mid.nodes[2].ids[ItemAtSecond], Publisher);
    assert 6 in MembersOf(mid.nodes[2], Publisher);
    assert AtFirst in mid.nodes[0].ids && 5 in Members(mid.nodes[0].ids[AtFirst], Subscriber);
    assert 5 in MembersOf(mid.nodes[0], Subscriber);
    assert 5 !in MembersOf(mid.nodes[2], Subscriber) && 5 !in MembersOf(mid.nodes[1], Subscriber);
    assert 5 !in OtherAudience(mid, 0, 2);
    assert IdsVia(mid, 0, 2) == {ItemAtFirst};
  }

  /** Unsubscribing host 7 drops the branch, and the last message still names host 5 as a subscriber. */
  lemma UnsubscribeLeavesStale()
    ensures Valid(Example()) && LeaveItem(Example(), Subscriber, 7, 12, AtFirst, DOMAIN_LOCAL).code == SUCCESS
    ensures 2 in Example().nodes && ItemAtFirst in Example().nodes[2].ids
    ensures var mid := SetHost(Example(), Subscriber, 2, ItemAtFirst, 7, false);
      var st' := LeaveItem(Example(), Subscriber, 7, 12, AtFirst, DOMAIN_LOCAL).st;
      2 in st'.nodes && Needs(st', 2) && !FreshItem(st', Announce(mid, 2, Audience(mid, 2)), 2)
  {
    hide AtFirst, AtSecond, ItemAtFirst, ItemAtSecond, Inv, Mirror, Unused, SurvivesDrop, MembersOf, Audience, DropBranch, FreshItem;
    var st := Example();
    ExampleInv();
    ExampleMirror();
    ExampleIds();
    ItemPlace(st, AtFirst, 12);
    var mid := SetHost(st, Subscriber, 2, ItemAtFirst, 7, false);
    ExampleMid(mid);
    SetHostSameKeys(st, Subscriber, 2, ItemAtFirst, 7, false);
    SameKeysKeepInv(st, mid);
    assert |mid.nodes[2].fathers| == |{0, 1}| == 2;
    AnnouncedThenDropped(mid, [], 0, 2);
    assert [] + Announce(mid, 2, Audience(mid, 2)) == Announce(mid, 2, Audience(mid, 2));
  }
}
