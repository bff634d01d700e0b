/**
 What the messages of a rendezvous node say, in terms of who is entered for what: the announcements
 of an item, the notices of a new or deleted scope, and what a new subscriber of a scope learns.
 */
module RvNotices {
  import opened RvGraph
  import opened RvPropagation
  import opened RvHosts
  import opened RvFreshness
  import opened RvRequests
  import opened RvAcceptance
  import opened RvServing

  /** Host h is entered for node r under one of its identifiers. */
  ghost predicate Entrant(st: Rv, role: Role, r: Ref, h: Host)
    requires r in st.nodes
  {
    exists id :: id in st.nodes[r].ids && Holds(st, role, h, id)
  }

  lemma MembersHold(st: Rv, r: Ref, role: Role, h: Host)
    requires Inv(st) && r in st.nodes
    ensures h in MembersOf(st.nodes[r], role) <==> Entrant(st, role, r, h)
  {
    hide Inv, Holds;
    forall id | id in st.nodes[r].ids ensures Holds(st, role, h, id) <==> h in Members(st.nodes[r].ids[id], role) {
      HoldsHere(st, role, r, id, h);
    }
  }

  /** Who counts as a subscriber of an item: whoever subscribes to one of its identifiers, or to the scope in front of one. */
  lemma AudienceHolds(st: Rv, i: Ref, h: Host)
    requires Inv(st) && i in st.nodes && st.nodes[i].Item?
    ensures h in Audience(st, i) <==>
      exists id :: id in st.nodes[i].ids && id != [] && (Holds(st, Subscriber, h, id) || Holds(st, Subscriber, h, Front(id)))
  {
    hide Inv, Holds, MembersOf, PairAt;
    InvIndexed(st);
    MembersHold(st, i, Subscriber, h);
    forall id | id in st.nodes[i].ids
      ensures id != [] && (Holds(st, Subscriber, h, id) || Holds(st, Subscriber, h, Front(id)) ==> h in Audience(st, i))
    {
      ScopeIdShape(st, i, id);
      GraphFathers(st, i);
      var f := FatherOfId(st, i, id);
      MembersHold(st, f, Subscriber, h);
    }
    if h in Audience(st, i) && h !in MembersOf(st.nodes[i], Subscriber) {
      var f :| f in st.nodes[i].fathers && f in st.nodes && h in MembersOf(st.nodes[f], Subscriber);
      MembersHold(st, f, Subscriber, h);
      var id :| id in st.nodes[f].ids && Holds(st, Subscriber, h, id);
      InvExtends(st, i, f, id);
      FrontLast(id, st.nodes[i].name);
    }
  }

  lemma GraphFathers(st: Rv, i: Ref)
    requires Graph(st) && i in st.nodes && st.nodes[i].Item?
    ensures st.nodes[i].fathers != {}
  {
    assert NodeLinks(st, i);
  }

  lemma InvExtends(st: Rv, i: Ref, f: Ref, id: Id)
    requires Inv(st) && i in st.nodes && f in st.nodes[i].fathers && f in st.nodes && id in st.nodes[f].ids
    ensures id + [st.nodes[i].name] in st.nodes[i].ids
  {
    assert Complete(st, i) && Extends(st, i, id);
  }

  /** The announcement of an item: none without a publisher or under another strategy; else one message, which is about the
      item, lists its identifiers, and states its publishers and the given subscribers - or, node-local, if there are any. */
  lemma AnnounceIs(st: Rv, i: Ref, subs: set<Host>)
    requires Inv(st) && i in st.nodes
    ensures var news := Announce(st, i, subs);
      && (news != [] <==> (st.nodes[i].strategy == NODE_LOCAL || st.nodes[i].strategy == DOMAIN_LOCAL) && exists h :: Entrant(st, Publisher, i, h))
      && |news| <= 1
      && forall m :: m in news ==>
           && !m.ScopeNotice? && m.item == i && m.ids == st.nodes[i].ids.Keys
           && (st.nodes[i].strategy == DOMAIN_LOCAL ==> m.Match? && m.subs == subs && forall h :: h in m.pubs <==> Entrant(st, Publisher, i, h))
           && (st.nodes[i].strategy == NODE_LOCAL ==> if subs == {} then m.StopLocal? else m.StartLocal?)
  {
    hide Inv, MembersOf, Entrant;
    forall h ensures h in MembersOf(st.nodes[i], Publisher) <==> Entrant(st, Publisher, i, h) {
      MembersHold(st, i, Publisher, h);
    }
  }

  /** A notice to the subscribers of scope f: one message if there are any - node-local, if the local proxy is one of them. */
  lemma NoticeIs(st: Rv, f: Ref, published: bool, ids: set<Id>, strategy: nat, localProxy: Host)
    requires Inv(st) && f in st.nodes
    ensures var news := Notice(published, ids, strategy, MembersOf(st.nodes[f], Subscriber), localProxy);
      && (news != [] <==> if strategy == NODE_LOCAL then Entrant(st, Subscriber, f, localProxy) else exists h :: Entrant(st, Subscriber, f, h))
      && |news| <= 1
      && forall m :: m in news ==>
           && m.ScopeNotice? && m.published == published && m.ids == ids && m.strategy == strategy
           && forall h :: h in m.subs <==> Entrant(st, Subscriber, f, h)
  {
    hide Inv, MembersOf, Entrant;
    forall h ensures h in MembersOf(st.nodes[f], Subscriber) <==> Entrant(st, Subscriber, f, h) {
      MembersHold(st, f, Subscriber, h);
    }
  }

  /** The notice of a pruned scope: sent exactly if its identifier is gone and its father has subscribers; it names all that
      is no longer indexed, or, of a scope that has other fathers, the one identifier. */
  lemma PruneNoticeIs(st: Rv, prefix: Id, name: Fragment, localProxy: Host)
    requires Inv(st) && prefix != [] && prefix + [name] in st.scopeIndex
    ensures prefix in st.scopeIndex && st.scopeIndex[prefix] in st.nodes && st.nodes[st.scopeIndex[prefix]].Scope?
    ensures st.scopeIndex[prefix + [name]] in st.nodes && st.nodes[st.scopeIndex[prefix + [name]]].Scope?
    ensures var full, f, r := prefix + [name], st.scopeIndex[prefix], st.scopeIndex[prefix + [name]];
      var st', news := PruneScope(st, prefix, r), PruneNotice(st, prefix, full, r, localProxy);
      && (news != [] <==>
            && full !in st'.scopeIndex
            && if st.nodes[r].strategy == NODE_LOCAL then Entrant(st, Subscriber, f, localProxy) else exists h :: Entrant(st, Subscriber, f, h))
      && |news| <= 1
      && forall m :: m in news ==>
           && m.ScopeNotice? && !m.published && m.strategy == st.nodes[r].strategy
           && m.ids == (if r in st'.nodes then {full} else st.scopeIndex.Keys - st'.scopeIndex.Keys)
           && forall h :: h in m.subs <==> Entrant(st, Subscriber, f, h)
  {
    hide Inv, Unused, Entrant, Notice, MembersOf, Prune;
    var full := prefix + [name];
    ScopePlace(st, prefix, name);
    var f, r := st.scopeIndex[prefix], st.scopeIndex[full];
    BranchGone(st, f, r, prefix, full);
    if st.nodes[r].children == {} && st.nodes[r].items == {} && Unused(st, f, r) {
      NoticeIs(st, f, false, st.nodes[r].ids.Keys, st.nodes[r].strategy, localProxy);
      NoticeIs(st, f, false, {full}, st.nodes[r].strategy, localProxy);
      PrunedIds(st, f, r);
    }
  }

  lemma PrunedIds(st: Rv, f: Ref, r: Ref)
    requires Inv(st) && r in st.nodes && st.nodes[r].Scope? && f in st.nodes && st.nodes[f].Scope? && f != r && Unused(st, f, r)
    ensures |st.nodes[r].fathers| == 1 <==> r !in Prune(st, f, r).nodes
    ensures |st.nodes[r].fathers| == 1 ==> st.scopeIndex.Keys - Prune(st, f, r).scopeIndex.Keys == st.nodes[r].ids.Keys
  {
    hide Unused;
    forall id | id in st.nodes[r].ids.Keys ensures id in st.scopeIndex.Keys {
      assert Owner(st, id, r);
    }
  }

  /** A new subscriber of a scope learns of each subscope under all its identifiers, unless that is node-local and the
      subscriber is not the local proxy; and of nothing else. */
  lemma {:induction false} NoticesTell(st: Rv, order: seq<Ref>, h: Host, localProxy: Host)
    requires forall c :: c in order ==> c in st.nodes
    ensures var news := ScopeNotices(st, order, h, localProxy);
      && (forall m :: m in news ==>
            && m.ScopeNotice? && m.published && m.subs == {h}
            && exists c :: c in order && m.ids == st.nodes[c].ids.Keys && m.strategy == st.nodes[c].strategy)
      && (forall c :: c in order && (st.nodes[c].strategy != NODE_LOCAL || h == localProxy) ==>
            ScopeNotice(true, st.nodes[c].ids.Keys, st.nodes[c].strategy, {h}) in news)
  {
    if order != [] {
      var n := |order| - 1;
      NoticesTell(st, order[..n], h, localProxy);
      assert order == order[..n] + [order[n]];
    }
  }

  /** What a new subscriber of r is told of its subscopes. */
  lemma AllNoticedTells(st: Rv, r: Ref, h: Host, localProxy: Host, news: seq<Message>)
    requires Inv(st) && AllNoticed(st, r, h, localProxy, news)
    ensures forall m :: m in news ==>
      && m.ScopeNotice? && m.published && m.subs == {h}
      && exists c :: c in st.nodes[r].children && c in st.nodes && m.ids == st.nodes[c].ids.Keys && m.strategy == st.nodes[c].strategy
    ensures forall c :: c in st.nodes[r].children ==>
      c in st.nodes && (st.nodes[c].strategy != NODE_LOCAL || h == localProxy ==>
        ScopeNotice(true, st.nodes[c].ids.Keys, st.nodes[c].strategy, {h}) in news)
  {
    hide Inv;
    var order: seq<Ref> :| Enumerates(order, st.nodes[r].children) && (forall c :: c in order ==> c in st.nodes)
      && news == ScopeNotices(st, order, h, localProxy);
    NoticesTell(st, order, h, localProxy);
  }

  lemma {:induction false} AnnouncementsTell(st: Rv, order: seq<Ref>, m: Message)
    requires forall i :: i in order ==> i in st.nodes
    ensures m in Announcements(st, order) <==> exists i :: i in order && m in Announce(st, i, Audience(st, i))
  {
    hide Announce, Audience;
    if order != [] {
      var n := |order| - 1;
      AnnouncementsTell(st, order[..n], m);
      assert order == order[..n] + [order[n]];
    }
  }

  /** When all items of a scope are announced, each published one is, with its publishers and its audience of now. */
  lemma AllAnnouncedTells(st: Rv, r: Ref, news: seq<Message>, i: Ref)
    requires Inv(st) && AllAnnounced(st, r, news) && i in st.nodes[r].items
    ensures i in st.nodes
    ensures st.nodes[i].strategy == DOMAIN_LOCAL && (exists h :: Entrant(st, Publisher, i, h)) ==>
      Match(i, MembersOf(st.nodes[i], Publisher), Audience(st, i), st.nodes[i].ids.Keys) in news
    ensures st.nodes[i].strategy == NODE_LOCAL && (exists h :: Entrant(st, Publisher, i, h)) ==>
      (if Audience(st, i) == {} then StopLocal(i, st.nodes[i].ids.Keys) else StartLocal(i, st.nodes[i].ids.Keys)) in news
  {
    hide Inv, Entrant, MembersOf, Audience;
    var order: seq<Ref> :| Enumerates(order, st.nodes[r].items) && (forall j :: j in order ==> j in st.nodes)
      && news == Announcements(st, order);
    forall m | m in Announce(st, i, Audience(st, i)) ensures m in news {
      AnnouncementsTell(st, order, m);
    }
    forall h | Entrant(st, Publisher, i, h) ensures h in MembersOf(st.nodes[i], Publisher) {
      MembersHold(st, i, Publisher, h);
    }
  }

  /** The subscribers of the father, if there are any - node-local, if the local proxy is one of them - are told in one
      message that the scope has been published under all its identifiers. */
  ghost predicate NewScopeTold(st: Rv, prefix: Id, full: Id, strategy: nat, localProxy: Host, news: seq<Message>) {
    && prefix in st.scopeIndex && st.scopeIndex[prefix] in st.nodes
    && full in st.scopeIndex && st.scopeIndex[full] in st.nodes
    && var f, r := st.scopeIndex[prefix], st.scopeIndex[full];
       && (news != [] <==> if strategy == NODE_LOCAL then Entrant(st, Subscriber, f, localProxy) else exists h :: Entrant(st, Subscriber, f, h))
       && |news| <= 1
       && forall m :: m in news ==>
            && m.ScopeNotice? && m.published && m.ids == st.nodes[r].ids.Keys && m.strategy == strategy
            && forall h :: h in m.subs <==> Entrant(st, Subscriber, f, h)
  }

  /** The subscribers of the father are told likewise that the scope is gone, if its identifier full is: under all it was
      known by, or under this one if it still has other fathers. */
  ghost predicate DeletionTold(st: Rv, st': Rv, prefix: Id, full: Id, localProxy: Host, news: seq<Message>) {
    && prefix in st.scopeIndex && st.scopeIndex[prefix] in st.nodes
    && full in st.scopeIndex && st.scopeIndex[full] in st.nodes
    && var f, r := st.scopeIndex[prefix], st.scopeIndex[full];
       && (news != [] <==>
             && full !in st'.scopeIndex
             && if st.nodes[r].strategy == NODE_LOCAL then Entrant(st, Subscriber, f, localProxy) else exists h :: Entrant(st, Subscriber, f, h))
       && |news| <= 1
       && forall m :: m in news ==>
            && m.ScopeNotice? && !m.published && m.strategy == st.nodes[r].strategy
            && m.ids == (if r in st'.nodes then {full} else st.scopeIndex.Keys - st'.scopeIndex.Keys)
            && forall h :: h in m.subs <==> Entrant(st, Subscriber, f, h)
  }

  /** Whatever notices have been sent in between say the same: published or deleted. */
  ghost predicate NoticesSay(sent: seq<Message>, sent': seq<Message>, published: bool) {
    && sent <= sent'
    && forall k :: |sent| <= k < |sent'| && sent'[k].ScopeNotice? ==> sent'[k].published == published
  }

  lemma NewsSay(sent: seq<Message>, news: seq<Message>, published: bool)
    requires forall m :: m in news && m.ScopeNotice? ==> m.published == published
    ensures NoticesSay(sent, sent + news, published)
  {
  }

  lemma AnnounceSays(st: Rv, i: Ref, subs: set<Host>)
    requires i in st.nodes
    ensures forall m :: m in Announce(st, i, subs) ==> !m.ScopeNotice?
  {
  }

  lemma AnnouncementsSay(st: Rv, r: Ref, news: seq<Message>)
    requires AllAnnounced(st, r, news)
    ensures forall m :: m in news ==> !m.ScopeNotice?
  {
    hide Enumerates, Announce, Audience;
    var order: seq<Ref> :| Enumerates(order, st.nodes[r].items) && (forall i :: i in order ==> i in st.nodes)
      && news == Announcements(st, order);
    forall m | m in news ensures !m.ScopeNotice? {
      AnnouncementsTell(st, order, m);
      var i :| i in order && m in Announce(st, i, Audience(st, i));
      AnnounceSays(st, i, Audience(st, i));
    }
  }

  /** A new subscriber is only ever told of scopes that exist. */
  lemma BriefingSays(st: Rv, r: Ref, h: Host, localProxy: Host, news: seq<Message>)
    requires Inv(st) && Briefed(st, r, h, localProxy, news)
    ensures forall m :: m in news && m.ScopeNotice? ==> m.published && m.subs == {h}
  {
    hide Inv, AllNoticed, AllAnnounced;
    var k :| 0 <= k <= |news| && AllNoticed(st, r, h, localProxy, news[..k]) && AllAnnounced(st, r, news[k..]);
    AllNoticedTells(st, r, h, localProxy, news[..k]);
    AnnouncementsSay(st, r, news[k..]);
    assert news == news[..k] + news[k..];
  }

  /** Whoever subscribes to an existing scope learns of every subscope, and every published item below is announced. */
  lemma BriefedTells(st: Rv, r: Ref, h: Host, localProxy: Host, news: seq<Message>)
    requires Inv(st) && Briefed(st, r, h, localProxy, news)
    ensures r in st.nodes && st.nodes[r].Scope?
    ensures forall c :: c in st.nodes[r].children ==>
      c in st.nodes && (st.nodes[c].strategy != NODE_LOCAL || h == localProxy ==>
        ScopeNotice(true, st.nodes[c].ids.Keys, st.nodes[c].strategy, {h}) in news)
    ensures forall i :: i in st.nodes[r].items ==>
      i in st.nodes && (st.nodes[i].strategy == DOMAIN_LOCAL && (exists q :: Entrant(st, Publisher, i, q)) ==>
        Match(i, MembersOf(st.nodes[i], Publisher), Audience(st, i), st.nodes[i].ids.Keys) in news)
  {
    hide Inv, AllNoticed, AllAnnounced, Entrant, MembersOf, Audience;
    var k :| 0 <= k <= |news| && AllNoticed(st, r, h, localProxy, news[..k]) && AllAnnounced(st, r, news[k..]);
    assert r in st.nodes && st.nodes[r].Scope? by { BriefedScope(st, r, h, localProxy, news[..k]); }
    AllNoticedTells(st, r, h, localProxy, news[..k]);
    forall i | i in st.nodes[r].items
      ensures i in st.nodes && (st.nodes[i].strategy == DOMAIN_LOCAL && (exists q :: Entrant(st, Publisher, i, q)) ==>
        Match(i, MembersOf(st.nodes[i], Publisher), Audience(st, i), st.nodes[i].ids.Keys) in news)
    {
      AllAnnouncedTells(st, r, news[k..], i);
    }
  }

  lemma BriefedScope(st: Rv, r: Ref, h: Host, localProxy: Host, news: seq<Message>)
    requires AllNoticed(st, r, h, localProxy, news)
    ensures r in st.nodes && st.nodes[r].Scope?
  {
  }

  // ---------- what lies below a scope ----------

  /** The identifiers a scope gives its items are those of items that extend one of its own by a fragment. */
  lemma BelowIs(st: Rv, r: Ref)
    requires Inv(st) && r in st.nodes && st.nodes[r].Scope?
    ensures forall id :: id in IdsBelow(st, r, st.nodes[r].items, r, {}) <==>
      id in st.pubIndex && id != [] && Front(id) in st.nodes[r].ids
  {
    hide Inv;
    InvIndexed(st);
    forall id | id in st.pubIndex && id != [] && Front(id) in st.nodes[r].ids ensures id in IdsBelow(st, r, st.nodes[r].items, r, {}) {
      IndexedItem(st, id);
      ItemOf(st, r, st.pubIndex[id], id);
    }
    forall j, id | j in st.nodes[r].items && j in st.nodes && id in st.nodes[r].ids
      ensures id + [st.nodes[j].name] in st.pubIndex && Front(id + [st.nodes[j].name]) == id
    {
      ItemExtends(st, r, j, id);
    }
  }

  lemma ItemOf(st: Rv, r: Ref, i: Ref, id: Id)
    requires Inv(st) && r in st.nodes && st.nodes[r].Scope? && i in st.nodes && st.nodes[i].Item? && id in st.nodes[i].ids
    requires id != [] && Front(id) in st.nodes[r].ids
    ensures i in st.nodes[r].items && Front(id) + [st.nodes[i].name] == id
  {
    hide Siblings, AllComplete;
    ScopeIdShape(st, i, id);
    GraphFathers(st, i);
    var f := FatherOfId(st, i, id);
    assert Owner(st, Front(id), r);
    assert NodeLinks(st, i);
    assert FatherLink(st, i, f);
    FrontLast(id, 0);
  }

  lemma ItemExtends(st: Rv, r: Ref, i: Ref, id: Id)
    requires Inv(st) && r in st.nodes && st.nodes[r].Scope? && i in st.nodes[r].items && i in st.nodes && id in st.nodes[r].ids
    ensures id + [st.nodes[i].name] in st.pubIndex && Front(id + [st.nodes[i].name]) == id
  {
    hide Siblings, AllSound;
    assert NodeLinks(st, r);
    InvExtends(st, i, r, id);
    assert Owner(st, id + [st.nodes[i].name], i);
  }
}
