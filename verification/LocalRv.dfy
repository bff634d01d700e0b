/**
 The rendezvous element itself: the request handlers in the imperative form of their source, each
 proved against the state functions of RvRequests.  nodes is the heap of scopes and items; next is
 the next unused reference; sent is everything sent so far, oldest first.
 */
module LocalRvModel {
  import opened RvGraph
  import opened RvPropagation
  import opened RvHosts
  import opened RvFreshness
  import opened RvRequests
  import opened RvAcceptance
  import opened RvNames
  import opened RvNotices
  import opened RvServing

  lemma SpreadUnion<T>(m: map<Id, T>, s: set<Id>, id: Id, v: T)
    ensures m + Spread(s, v) + Spread({id}, v) == m + Spread(s + {id}, v)
  {
  }

  lemma WithIdsUnion(n: Node, s: set<Id>, id: Id)
    ensures WithIds(WithIds(n, s), {id}) == WithIds(n, s + {id})
  {
    SpreadUnion(n.ids, s, id, NoHosts);
  }

  lemma AddIdsUnion(st: Rv, r: Ref, s: set<Id>, id: Id)
    requires r in st.nodes
    ensures AddIds(AddIds(st, r, s), r, {id}) == AddIds(st, r, s + {id})
  {
    WithIdsUnion(st.nodes[r], s, id);
    WithIdsKind(st.nodes[r], s);
    SpreadUnion(st.scopeIndex, s, id, r);
    SpreadUnion(st.pubIndex, s, id, r);
    hide WithIds, Spread;
    assert st.nodes[r := WithIds(st.nodes[r], s)][r := WithIds(st.nodes[r], s + {id})] == st.nodes[r := WithIds(st.nodes[r], s + {id})];
  }

  lemma WithIdsKind(n: Node, s: set<Id>)
    ensures WithIds(n, s).Scope? == n.Scope?
  {
  }

  lemma AddNoIds(st: Rv, r: Ref)
    requires r in st.nodes
    ensures AddIds(st, r, {}) == st
  {
    assert AddIds(st, r, {}).nodes[r].ids == st.nodes[r].ids;
    assert AddIds(st, r, {}).nodes == st.nodes;
  }

  /** The identifiers missing at r on account of the fathers in done and the identifiers in part of f. */
  ghost function MissingFrom(st: Rv, r: Ref, done: set<Ref>, f: Ref, part: set<Id>): set<Id>
    requires r in st.nodes
  {
    set g, id | g in st.nodes[r].fathers && g in st.nodes && id in st.nodes[g].ids
      && id + [st.nodes[r].name] !in st.nodes[r].ids && (g in done || (g == f && id in part)) :: id + [st.nodes[r].name]
  }

  lemma MissingFromStep(st: Rv, r: Ref, done: set<Ref>, f: Ref, part: set<Id>, id: Id)
    requires r in st.nodes && f in st.nodes && f in st.nodes[r].fathers && id in st.nodes[f].ids
    ensures MissingFrom(st, r, done, f, part + {id}) == MissingFrom(st, r, done, f, part)
      + if id + [st.nodes[r].name] in st.nodes[r].ids then {} else {id + [st.nodes[r].name]}
  {
    var x := st.nodes[r].name;
    var s, s' := MissingFrom(st, r, done, f, part), MissingFrom(st, r, done, f, part + {id});
    forall full | full in s' && full !in s ensures full == id + [x] && full !in st.nodes[r].ids {
      var g, gid :| g in st.nodes[r].fathers && g in st.nodes && gid in st.nodes[g].ids && gid + [x] == full
        && gid + [x] !in st.nodes[r].ids && (g in done || (g == f && gid in part + {id}));
    }
  }

  class LocalRv {
    const localProxy: Host
    var nodes: map<Ref, Node>
    var scopeIndex: map<Id, Ref>
    var pubIndex: map<Id, Ref>
    var hosts: map<Host, HostRecord>
    var next: Ref
    var sent: seq<Message>
    /** Items whose last message may no longer be current. */
    ghost var stale: set<Ref>
    /** Items whose last message may not list the identifiers they have. */
    ghost var misnamed: set<Ref>

    ghost function State(): Rv
      reads this
    {
      Rv(nodes, scopeIndex, pubIndex, hosts)
    }

    ghost predicate Good()
      reads this
    {
      && RvRequests.Valid(State())
      && (forall r :: r in nodes ==> r < next)
      && Fresh(State(), sent, stale) && Named(State(), sent, misnamed)
    }

    constructor (localProxy: Host)
      ensures Good() && State() == Rv(map[], map[], map[], map[]) && sent == [] && stale == misnamed == {}
    {
      this.localProxy := localProxy;
      nodes, scopeIndex, pubIndex, hosts := map[], map[], map[], map[];
      next, sent, stale, misnamed := 0, [], {}, {};
    }

    // ---------- scopes and items ----------

    /** Hands every father's identifiers down to r. */
    method UpdateIDs(r: Ref, suffix: Fragment)
      requires r in nodes && suffix == nodes[r].name && r !in nodes[r].fathers
      requires forall f :: f in nodes[r].fathers ==> f in nodes
      modifies this`nodes, this`scopeIndex, this`pubIndex
      ensures State() == AddIds(old(State()), r, Missing(old(State()), r))
    {
      hide AddIds;
      ghost var st := State();
      AddNoIds(st, r);
      var todo := nodes[r].fathers;
      ghost var done: set<Ref> := {};
      assert MissingFrom(st, r, done, 0, {}) == {};
      while todo != {}
        invariant done !! todo && done + todo == st.nodes[r].fathers
        invariant State() == AddIds(st, r, MissingFrom(st, r, done, 0, {}))
        decreases todo
      {
        var f :| f in todo;
        AddIdsNode(st, r, MissingFrom(st, r, done, 0, {}));
        var ids := nodes[f].ids.Keys;
        ghost var part: set<Id> := {};
        assert MissingFrom(st, r, done, f, part) == MissingFrom(st, r, done, 0, {});
        while ids != {}
          invariant part !! ids && part + ids == st.nodes[f].ids.Keys
          invariant State() == AddIds(st, r, MissingFrom(st, r, done, f, part))
          decreases ids
        {
          var id :| id in ids;
          ids := ids - {id};
          var fullID := id + [suffix];
          ghost var s := MissingFrom(st, r, done, f, part);
          AddIdsNode(st, r, s);
          MissingFromStep(st, r, done, f, part, id);
          if fullID !in nodes[r].ids {
            AddOneId(r, fullID);
            AddIdsUnion(st, r, s, fullID);
          } else {
            assert fullID in s || fullID in st.nodes[r].ids;
            assert MissingFrom(st, r, done, f, part + {id}) == s;
          }
          part := part + {id};
        }
        assert MissingFrom(st, r, done, f, part) == MissingFrom(st, r, done + {f}, 0, {});
        done := done + {f};
        todo := todo - {f};
      }
      assert MissingFrom(st, r, done, 0, {}) == Missing(st, r);
    }

    method AddOneId(r: Ref, id: Id)
      requires r in nodes && id !in nodes[r].ids
      modifies this`nodes, this`scopeIndex, this`pubIndex
      ensures State() == AddIds(old(State()), r, {id})
    {
      ghost var st := State();
      if nodes[r].Scope? {
        scopeIndex := scopeIndex[id := r];
      } else {
        pubIndex := pubIndex[id := r];
      }
      nodes := nodes[r := WithPair(nodes[r], id, NoHosts)];
      assert nodes[r] == WithIds(st.nodes[r], {id});
      assert scopeIndex == AddIds(st, r, {id}).scopeIndex && pubIndex == AddIds(st, r, {id}).pubIndex;
    }

    /** The last fragment of some identifier of r. */
    method SuffixOf(r: Ref) returns (suffix: Fragment)
      requires r in nodes && nodes[r].ids != map[] && Sound(State(), r)
      ensures suffix == nodes[r].name
    {
      assert nodes[r].ids.Keys != {};
      var id :| id in nodes[r].ids.Keys;
      suffix := Last(id);
    }

    /** Updates a scope from its fathers, then its subscopes, then its items. */
    method RecursivelyUpdateIDs(r: Ref, suffix: Fragment, ghost depth: map<Ref, nat>, ghost bound: nat)
      requires Graph(State()) && r in nodes && nodes[r].Scope? && nodes[r].fathers != {} && suffix == nodes[r].name
      requires Ranked(State(), depth, bound)
      requires forall n :: n in nodes && n != r ==> nodes[n].ids != map[]
      modifies this`nodes, this`scopeIndex, this`pubIndex
      ensures Propagated(old(State()), State(), r)
      ensures old(nodes)[r].children == {} && old(nodes)[r].items == {} ==> State() == AddIds(old(State()), r, Missing(old(State()), r))
      decreases bound - depth[r], 1
    {
      hide Graph, Complete, AddIds, NodeGrows, Links, AllSound, Indexed, Siblings;
      ghost var st := State();
      GraphParts(st, r);
      UpdateIDs(r, suffix);
      VisitingStarts(st, r);
      UpdatedNode(st, State(), r);
      UpdateChildren(r, st, depth, bound);
      UpdatedNode(st, State(), r);
      UpdateItems(r, st, depth, bound);
      VisitingEnds(st, State(), r);
    }

    method UpdateChildren(r: Ref, ghost st: Rv, ghost depth: map<Ref, nat>, ghost bound: nat)
      requires Graph(st) && r in st.nodes && st.nodes[r].Scope? && st.nodes[r].fathers != {} && Ranked(st, depth, bound)
      requires forall n :: n in st.nodes && n != r ==> st.nodes[n].ids != map[]
      requires r in nodes && SameNode(st.nodes[r], nodes[r])
      requires Visiting(st, State(), r, st.nodes[r].children + st.nodes[r].items)
      modifies this`nodes, this`scopeIndex, this`pubIndex
      ensures Visiting(st, State(), r, st.nodes[r].items)
      ensures st.nodes[r].children == {} ==> State() == old(State())
      decreases bound - depth[r], 0
    {
      hide Graph, Complete, Grows, Ranked, Visiting;
      var children := nodes[r].children;
      while children != {}
        invariant children <= st.nodes[r].children
        invariant st.nodes[r].children == {} ==> State() == old(State())
        invariant Visiting(st, State(), r, children + st.nodes[r].items)
        decreases children
      {
        var c :| c in children;
        ghost var st1 := State();
        VisitingParts(st, st1, r, children + st.nodes[r].items);
        ChildReady(st, st1, r, c, depth, bound);
        VisitedNotEmpty(st, st1, r, children + st.nodes[r].items, depth, bound);
        var s := SuffixOf(c);
        RecursivelyUpdateIDs(c, s, depth, bound);
        VisitingStep(st, st1, State(), r, children + st.nodes[r].items, c);
        NotBoth(st, r, c);
        assert children + st.nodes[r].items - {c} == children - {c} + st.nodes[r].items;
        children := children - {c};
      }
      assert children + st.nodes[r].items == st.nodes[r].items;
    }

    method UpdateItems(r: Ref, ghost st: Rv, ghost depth: map<Ref, nat>, ghost bound: nat)
      requires Graph(st) && r in st.nodes && st.nodes[r].Scope? && Ranked(st, depth, bound)
      requires forall n :: n in st.nodes && n != r ==> st.nodes[n].ids != map[]
      requires r in nodes && SameNode(st.nodes[r], nodes[r])
      requires Visiting(st, State(), r, st.nodes[r].items)
      modifies this`nodes, this`scopeIndex, this`pubIndex
      ensures Visiting(st, State(), r, {})
      ensures st.nodes[r].items == {} ==> State() == old(State())
    {
      hide Graph, Complete, Grows, Ranked, AddIds, Visiting;
      var items := nodes[r].items;
      while items != {}
        invariant items <= st.nodes[r].items
        invariant st.nodes[r].items == {} ==> State() == old(State())
        invariant Visiting(st, State(), r, items)
        decreases items
      {
        var i :| i in items;
        ghost var st1 := State();
        VisitingParts(st, st1, r, items);
        ChildReady(st, st1, r, i, depth, bound);
        var s := SuffixOf(i);
        UpdateIDs(i, s);
        ItemPropagated(st1, i);
        VisitingStep(st, st1, State(), r, items, i);
        items := items - {i};
      }
    }

    // ---------- who publishes and who subscribes ----------

    /** Adds the hosts entered for r in the role. */
    method GetMembers(r: Ref, role: Role, hs: set<Host>) returns (all: set<Host>)
      requires r in nodes
      ensures all == hs + MembersOf(nodes[r], role)
    {
      all := hs;
      var todo := nodes[r].ids.Keys;
      ghost var done: set<Id> := {};
      while todo != {}
        invariant done + todo == nodes[r].ids.Keys
        invariant all == hs + set id, h | id in done && id in nodes[r].ids && h in Members(nodes[r].ids[id], role) :: h
        decreases todo
      {
        var id :| id in todo;
        all := all + Members(nodes[r].ids[id], role);
        todo, done := todo - {id}, done + {id};
      }
    }

    /** The subscribers of an item and of all its fathers. */
    method AudienceOf(i: Ref) returns (subs: set<Host>)
      requires i in nodes && forall f :: f in nodes[i].fathers ==> f in nodes
      ensures subs == Audience(State(), i)
    {
      hide MembersOf;
      subs := GetMembers(i, Subscriber, {});
      var todo := nodes[i].fathers;
      ghost var done: set<Ref> := {};
      while todo != {}
        invariant done + todo == nodes[i].fathers
        invariant subs == MembersOf(nodes[i], Subscriber)
          + set f, h | f in done && f in nodes && h in MembersOf(nodes[f], Subscriber) :: h
        decreases todo
      {
        var f :| f in todo;
        subs := GetMembers(f, Subscriber, subs);
        todo, done := todo - {f}, done + {f};
      }
    }

    /** Whether anybody is entered for r under an identifier it owes to f. */
    method CheckForOtherPubSub(f: Ref, r: Ref) returns (used: bool)
      requires Good() && r in nodes && f in nodes && f in nodes[r].fathers
      ensures used == !Unused(State(), f, r)
    {
      hide Links, Siblings, Indexed, Fresh, Named, Mirror;
      ViaIsCarried(State(), f, r);
      InvIsSound(State(), r);
      var suffix := SuffixOf(r);
      var todo := nodes[f].ids.Keys;
      ghost var done: set<Id> := {};
      while todo != {}
        invariant done + todo == nodes[f].ids.Keys
        invariant forall id :: id in done ==> id + [suffix] in nodes[r].ids && nodes[r].ids[id + [suffix]] == NoHosts
        decreases todo
      {
        var id :| id in todo;
        assert id + [suffix] in IdsVia(State(), f, r);
        assert id + [suffix] in nodes[r].ids.Keys;
        var pair := nodes[r].ids[id + [suffix]];
        if pair.pubs != {} || pair.subs != {} {
          return true;
        }
        todo, done := todo - {id}, done + {id};
      }
      used := false;
    }

    /** Whether anybody is entered for r under any identifier. */
    method CheckForAnyPubSub(r: Ref) returns (used: bool)
      requires r in nodes
      ensures used == !Deserted(nodes[r])
    {
      var todo := nodes[r].ids.Keys;
      ghost var done: set<Id> := {};
      while todo != {}
        invariant done + todo == nodes[r].ids.Keys
        invariant forall id :: id in done ==> id in nodes[r].ids && nodes[r].ids[id] == NoHosts
        decreases todo
      {
        var id :| id in todo;
        var pair := nodes[r].ids[id];
        if pair.pubs != {} || pair.subs != {} {
          return true;
        }
        todo, done := todo - {id}, done + {id};
      }
      used := false;
    }

    // ---------- messages ----------

    /** Tells the topology manager, or the local publisher, who publishes and who subscribes to item i. */
    method Rendezvous(i: Ref, subs: set<Host>)
      requires i in nodes
      modifies this`sent
      ensures sent == old(sent) + Announce(State(), i, subs)
    {
      hide MembersOf;
      var pubs := GetMembers(i, Publisher, {});
      assert pubs == MembersOf(nodes[i], Publisher);
      assert sent + [] == sent;
      if pubs != {} {
        if nodes[i].strategy == NODE_LOCAL {
          if subs != {} {
            sent := sent + [StartLocal(i, nodes[i].ids.Keys)];
          } else {
            sent := sent + [StopLocal(i, nodes[i].ids.Keys)];
          }
        } else if nodes[i].strategy == DOMAIN_LOCAL {
          sent := sent + [Match(i, pubs, subs, nodes[i].ids.Keys)];
        }
      }
    }

    method AnnounceItem(i: Ref)
      requires Good() && i in nodes
      modifies this`sent, this`stale, this`misnamed
      ensures Good() && State() == old(State()) && stale == old(stale) - {i}
      ensures misnamed == old(misnamed) - {i}
      ensures sent == old(sent) + Announce(State(), i, Audience(State(), i))
    {
      hide Audience, Announce, Fresh, Named, Mirror, AllSound, AllComplete, Indexed, Siblings;
      GraphParts(State(), i);
      var subs := AudienceOf(i);
      AnnounceRefreshes(State(), sent, stale, i);
      AnnounceNames(State(), sent, misnamed, i, subs);
      Rendezvous(i, subs);
      stale, misnamed := stale - {i}, misnamed - {i};
    }

    method AnnounceItems(r: Ref)
      requires Good() && r in nodes && nodes[r].Scope?
      modifies this`sent, this`stale, this`misnamed
      ensures Good() && State() == old(State()) && stale == old(stale) - nodes[r].items
      ensures misnamed == old(misnamed) - nodes[r].items
      ensures |old(sent)| <= |sent| && sent[..|old(sent)|] == old(sent) && AllAnnounced(State(), r, sent[|old(sent)|..])
    {
      hide Good, Announcements, Announce, Audience, Enumerates, AllAnnounced;
      ghost var st := State();
      EmptyEnumerates();
      ItemsExist(r);
      var todo := nodes[r].items;
      ghost var done: set<Ref> := {};
      ghost var order: seq<Ref> := [];
      ghost var news: seq<Message> := [];
      EmptyAnnouncements(st);
      while todo != {}
        invariant Good() && State() == st && done !! todo && done + todo == st.nodes[r].items
        invariant Enumerates(order, done) && forall i :: i in order ==> i in st.nodes
        invariant stale == old(stale) - done && misnamed == old(misnamed) - done
        invariant news == Announcements(st, order) && sent == old(sent) + news
        decreases todo
      {
        var i :| i in todo;
        AnnouncementsMore(st, order, i);
        EnumeratesMore(order, done, i);
        ghost var more := Announce(st, i, Audience(st, i));
        AnnounceItem(i);
        Appended(old(sent), news, more);
        news := news + more;
        todo, done, order := todo - {i}, done + {i}, order + [i];
      }
      assert done == st.nodes[r].items;
      Appended(old(sent), news, []);
      AnnouncedInOrder(st, r, order);
    }

    lemma ItemsExist(r: Ref)
      requires Good() && r in nodes && nodes[r].Scope?
      ensures forall i :: i in nodes[r].items ==> i in nodes && nodes[i].Item?
      ensures forall c :: c in nodes[r].children ==> c in nodes && nodes[c].Scope?
    {
      assert NodeLinks(State(), r);
    }

    method NotifySubscribers(published: bool, ids: set<Id>, strategy: nat, subs: set<Host>)
      requires Good()
      modifies this`sent
      ensures Good() && State() == old(State())
      ensures sent == old(sent) + Notice(published, ids, strategy, subs, localProxy)
      ensures |sent| == |old(sent)| + if (if strategy == NODE_LOCAL then localProxy in subs else subs != {}) then 1 else 0
      ensures forall k :: |old(sent)| <= k < |sent| ==> sent[k] == ScopeNotice(published, ids, strategy, subs)
    {
      hide Inv, Mirror, Fresh, Named;
      NoticeFresh(State(), sent, stale, Notice(published, ids, strategy, subs, localProxy));
      NoticeNames(State(), sent, misnamed, Notice(published, ids, strategy, subs, localProxy));
      if strategy == NODE_LOCAL {
        if localProxy in subs {
          sent := sent + [ScopeNotice(published, ids, strategy, subs)];
        }
      } else {
        if subs != {} {
          sent := sent + [ScopeNotice(published, ids, strategy, subs)];
        }
      }
    }

    /** A new subscriber learns of the subscopes of r. */
    method NotifySubscopes(r: Ref, h: Host)
      requires Good() && r in nodes && nodes[r].Scope?
      modifies this`sent
      ensures Good() && State() == old(State())
      ensures |old(sent)| <= |sent| && sent[..|old(sent)|] == old(sent)
      ensures AllNoticed(State(), r, h, localProxy, sent[|old(sent)|..])
    {
      hide Good, ScopeNotices, Notice, Enumerates, AllNoticed;
      ghost var st, n := State(), |sent|;
      EmptyEnumerates();
      ItemsExist(r);
      var todo := nodes[r].children;
      assert st.nodes[r].children - todo == {};
      ghost var order: seq<Ref> := [];
      ghost var news: seq<Message> := [];
      EmptyNotices(st, h, localProxy);
      while todo != {}
        invariant Good() && State() == st && todo <= st.nodes[r].children
        invariant Enumerates(order, st.nodes[r].children - todo) && forall c :: c in order ==> c in st.nodes
        invariant news == ScopeNotices(st, order, h, localProxy) && sent == old(sent) + news
        decreases todo
      {
        var c :| c in todo;
        ScopeNoticesMore(st, order, c, h, localProxy);
        EnumeratesMore(order, st.nodes[r].children - todo, c);
        NotifySubscribers(true, nodes[c].ids.Keys, nodes[c].strategy, {h});
        assert st.nodes[r].children - (todo - {c}) == st.nodes[r].children - todo + {c};
        news := news + Notice(true, st.nodes[c].ids.Keys, st.nodes[c].strategy, {h}, localProxy);
        todo, order := todo - {c}, order + [c];
      }
      assert st.nodes[r].children - todo == st.nodes[r].children;
      assert sent[n..] == news;
      NoticedInOrder(st, r, order, h, localProxy);
    }

    // ---------- elementary changes ----------

    /** Enters a host for one identifier of r; false if it already was. */
    method Enter(role: Role, r: Ref, id: Id, h: Host) returns (added: bool)
      requires Good() && r in nodes && id in nodes[r].ids
      modifies this`nodes, this`hosts, this`stale, this`misnamed
      ensures Good() && added == (h !in Members(old(nodes)[r].ids[id], role))
      ensures State() == if added then SetHost(old(State()), role, r, id, h, true) else old(State())
      ensures stale == old(stale) + if added then TouchedBy(old(State()), role, r) else {}
      ensures misnamed == old(misnamed) + if added then TouchedBy(old(State()), role, r) else {}
    {
      hide Inv, Mirror, Fresh, Named, Entered, Removed;
      var pair := nodes[r].ids[id];
      if h in Members(pair, role) {
        return false;
      }
      SetHostEnters(State(), role, r, id, h);
      SetHostFresh(State(), sent, stale, role, r, id, h, true);
      SetHostNamed(State(), sent, misnamed, role, r, id, h, true);
      stale, misnamed := stale + TouchedBy(State(), role, r), misnamed + TouchedBy(State(), role, r);
      hosts := hosts[h := WithListed(if h in hosts then hosts[h] else NoRecord, role, nodes[r].Scope?, id, true)];
      nodes := nodes[r := WithPair(nodes[r], id, WithMember(pair, role, h, true))];
      added := true;
    }

    /** Erases a host from one identifier of r. */
    method Leave(role: Role, r: Ref, id: Id, h: Host)
      requires Good() && r in nodes && id in nodes[r].ids
      modifies this`nodes, this`hosts, this`stale, this`misnamed
      ensures Good() && State() == SetHost(old(State()), role, r, id, h, false)
      ensures stale == old(stale) + TouchedBy(old(State()), role, r)
      ensures misnamed == old(misnamed) + TouchedBy(old(State()), role, r)
    {
      hide Inv, Mirror, Fresh, Named, Entered, Removed;
      SetHostEnters(State(), role, r, id, h);
      SetHostFresh(State(), sent, stale, role, r, id, h, false);
      SetHostNamed(State(), sent, misnamed, role, r, id, h, false);
      stale, misnamed := stale + TouchedBy(State(), role, r), misnamed + TouchedBy(State(), role, r);
      hosts := hosts[h := WithListed(if h in hosts then hosts[h] else NoRecord, role, nodes[r].Scope?, id, false)];
      nodes := nodes[r := WithPair(nodes[r], id, WithMember(nodes[r].ids[id], role, h, false))];
    }

    method CreateRoot(name: Fragment, strategy: nat) returns (r: Ref)
      requires Good() && [name] !in scopeIndex
      modifies this`nodes, this`scopeIndex, this`next
      ensures Good() && r == old(next) && r !in old(nodes) && State() == NewRoot(old(State()), r, name, strategy)
    {
      hide Inv, Mirror, Fresh, Named, SamePairs;
      r := next;
      NewRootKeeps(State(), r, name, strategy);
      SamePairsKeepEntries(State(), NewRoot(State(), r, name, strategy));
      NewRootFresh(State(), sent, stale, r, name, strategy);
      NewRootNamed(State(), sent, misnamed, r, name, strategy);
      next := next + 1;
      nodes := nodes[r := Scope(name, strategy, map[[name] := NoHosts], {}, {}, {})];
      scopeIndex := scopeIndex[[name] := r];
    }

    /** A new scope or item below f, with all the identifiers f hands down. */
    method CreateChild(f: Ref, prefix: Id, scope: bool, name: Fragment, strategy: nat) returns (r: Ref)
      requires Good() && f in nodes && nodes[f].Scope? && prefix in nodes[f].ids
      requires prefix + [name] !in scopeIndex && prefix + [name] !in pubIndex
      modifies this`nodes, this`scopeIndex, this`pubIndex, this`next
      ensures Good() && r == old(next) && r !in old(nodes)
      ensures State() == NewChild(old(State()), f, r, scope, name, strategy)
      ensures NewAt(State(), f, r, scope, strategy, prefix + [name])
    {
      hide Graph, Valid, Fresh, Named, AddIds, Missing, AllComplete, NewAt, Ranked, Propagated;
      ghost var st := State();
      r := next;
      NewChildNamed(st, sent, misnamed, f, r, scope, name, strategy);
      ghost var depth, bound := ChildCreated(st, sent, stale, f, r, scope, name, strategy, prefix);
      next := next + 1;
      nodes := nodes[r := Child(scope, name, strategy, f)][f := if scope then WithChild(nodes[f], r) else WithItem(nodes[f], r)];
      assert State() == Attach(st, f, r, scope, name, strategy);
      if scope {
        RecursivelyUpdateIDs(r, name, depth, bound);
      } else {
        UpdateIDs(r, name);
      }
    }

    /** Makes r a child of f as well and hands the identifiers down; f must not lie below r. */
    method LinkUnder(f: Ref, prefix: Id, r: Ref)
      requires Good() && CanLink(State(), f, prefix, r)
      requires nodes[r].Scope? ==> NotAbove(State(), r, f)
      modifies this`nodes, this`scopeIndex, this`pubIndex, this`stale, this`misnamed
      ensures Good() && f in nodes && LinkedAndPropagated(old(State()), State(), f, r)
      ensures r in nodes && prefix + [nodes[r].name] in nodes[r].ids && nodes[r].name == old(nodes)[r].name
      ensures nodes[r].Scope? == old(nodes)[r].Scope? && nodes[r].strategy == old(nodes)[r].strategy
      ensures stale == old(stale) + if old(nodes)[r].Scope? then {} else {r}
      ensures misnamed == old(misnamed) + ItemsBelow(old(State()), r)
    {
      hide Inv, Mirror, Fresh, Named, SamePairs, NodeGrows, NotAbove, Propagated, ItemsBelow;
      ghost var st := State();
      if nodes[r].Scope? {
        LinkScope(f, prefix, r);
      } else {
        LinkItem(f, prefix, r);
      }
      stale := stale + if st.nodes[r].Scope? then {} else {r};
      LinkedKeeps(st, State(), f, r, prefix);
      SamePairsKeepEntries(st, State());
      LinkedScopeFresh(st, State(), sent, old(stale), f, r);
      LinkedNamed(st, State(), sent, misnamed, f, r);
      misnamed := misnamed + ItemsBelow(st, r);
      LinkedNode1(st, State(), f, r);
    }

    method LinkScope(f: Ref, prefix: Id, r: Ref)
      requires Inv(State()) && CanLink(State(), f, prefix, r) && nodes[r].Scope? && NotAbove(State(), r, f)
      modifies this`nodes, this`scopeIndex, this`pubIndex
      ensures LinkedAndPropagated(old(State()), State(), f, r)
    {
      hide Graph, AddIds, Complete, AllComplete, NodeGrows, NotAbove, Link, Ranked;
      ghost var st := State();
      LinkKeepsGraph(st, f, r);
      LinkedNodes(st, f, r);
      ghost var depth, bound := LinkKeepsRank(st, f, r);
      nodes := nodes[r := WithFathers(nodes[r], nodes[r].fathers + {f})][f := WithChild(nodes[f], r)];
      LinkIs(st, State(), f, r);
      RecursivelyUpdateIDs(r, nodes[r].name, depth, bound);
    }

    method LinkItem(f: Ref, prefix: Id, r: Ref)
      requires Inv(State()) && CanLink(State(), f, prefix, r) && nodes[r].Item?
      modifies this`nodes, this`scopeIndex, this`pubIndex
      ensures LinkedAndPropagated(old(State()), State(), f, r)
    {
      hide Graph, AddIds, Complete, AllComplete, NodeGrows, Link, Missing;
      ghost var st := State();
      LinkKeepsGraph(st, f, r);
      NotOwnFather(st, r);
      LinkedNodes(st, f, r);
      nodes := nodes[r := WithFathers(nodes[r], nodes[r].fathers + {f})][f := WithItem(nodes[f], r)];
      LinkIs(st, State(), f, r);
      GraphParts(State(), r);
      UpdateIDs(r, nodes[r].name);
      ItemPropagated(Link(st, f, r), r);
    }

    /** Deletes r, nobody being entered for it any more, from its only father f and from the index. */
    method DeleteNode(f: Ref, r: Ref)
      requires Good() && r in nodes && f in nodes && nodes[r].fathers == {f} && Unused(State(), f, r)
      requires nodes[r].Scope? ==> nodes[r].children == {} && nodes[r].items == {}
      modifies this`nodes, this`scopeIndex, this`pubIndex
      ensures Good() && old(nodes)[f].Scope? && State() == DropNode(old(State()), f, r)
    {
      hide Valid, Fresh, Named, Unused, DropNode;
      NodeDropped(State(), sent, stale, f, r);
      DropNamed(State(), sent, misnamed, f, r);
      DropNodeIs(State(), f, r);
      var scope := nodes[r].Scope?;
      EraseFromIndex(scope, nodes[r].ids.Keys);
      nodes := nodes[f := WithoutChild(nodes[f], r, scope)] - {r};
    }

    /** Deletes the branch of r below f: the identifiers that lead through f, and the link. */
    method DeleteBranch(f: Ref, r: Ref)
      requires Good() && r in nodes && f in nodes && f in nodes[r].fathers && nodes[r].fathers != {f} && Unused(State(), f, r)
      requires nodes[r].Scope? ==> nodes[r].children == {} && nodes[r].items == {}
      modifies this`nodes, this`scopeIndex, this`pubIndex, this`stale, this`misnamed
      ensures Good() && old(nodes)[f].Scope? && State() == DropBranch(old(State()), f, r)
      ensures stale == old(stale) + if old(nodes)[r].Scope? then {} else {r}
      ensures misnamed == old(misnamed) + if old(nodes)[r].Scope? then {} else {r}
    {
      hide Valid, Fresh, Named, Unused, DropBranch, Sound;
      ghost var st := State();
      BranchDropped(st, sent, stale, f, r);
      DropNamed(st, sent, misnamed, f, r);
      DropBranchIs(st, f, r);
      stale := stale + if nodes[r].Scope? then {} else {r};
      misnamed := misnamed + if nodes[r].Scope? then {} else {r};
      var suffix := SuffixOf(r);
      var scope := nodes[r].Scope?;
      var todo := nodes[f].ids.Keys;
      var gone: set<Id> := {};
      while todo != {}
        invariant gone == set id | id in nodes[f].ids && id !in todo :: id + [suffix]
        decreases todo
      {
        var id :| id in todo;
        gone := gone + {id + [suffix]};
        todo := todo - {id};
      }
      assert gone == IdsVia(st, f, r);
      EraseFromIndex(scope, gone);
      nodes := nodes[r := Without(nodes[r], f, gone)][f := WithoutChild(nodes[f], r, scope)];
    }

    method DeleteRoot(r: Ref)
      requires Good() && r in nodes && nodes[r].Scope? && nodes[r].fathers == {} && Deserted(nodes[r])
      requires nodes[r].children == {} && nodes[r].items == {}
      modifies this`nodes, this`scopeIndex, this`pubIndex
      ensures Good() && State() == DropRoot(old(State()), r)
    {
      hide Inv, Mirror, Fresh, Named, SamePairs;
      ghost var st := State();
      DropRootKeeps(st, r);
      SamePairsKeepEntries(st, DropRoot(st, r));
      DropRootFresh(st, sent, stale, r);
      DropRootNamed(st, sent, misnamed, r);
      EraseFromIndex(true, nodes[r].ids.Keys);
      nodes := nodes - {r};
    }

    method EraseFromIndex(scope: bool, gone: set<Id>)
      modifies this`scopeIndex, this`pubIndex
      ensures scopeIndex == (if scope then old(scopeIndex) - gone else old(scopeIndex))
      ensures pubIndex == (if scope then old(pubIndex) else old(pubIndex) - gone)
    {
      var todo := gone;
      while todo != {}
        invariant todo <= gone
        invariant scopeIndex == (if scope then old(scopeIndex) - (gone - todo) else old(scopeIndex))
        invariant pubIndex == (if scope then old(pubIndex) else old(pubIndex) - (gone - todo))
        decreases todo
      {
        var id :| id in todo;
        if scope {
          scopeIndex := scopeIndex - {id};
        } else {
          pubIndex := pubIndex - {id};
        }
        todo := todo - {id};
      }
    }

    // ---------- publishing and subscribing ----------

    /** Publishes or subscribes to a root scope; a subscriber of an existing one learns what is there. */
    method EnterRootScope(role: Role, h: Host, name: Fragment, strategy: nat) returns (ret: nat)
      requires Good()
      modifies this`nodes, this`scopeIndex, this`hosts, this`next, this`sent, this`stale, this`misnamed
      ensures Good() && stale <= old(stale) && misnamed <= old(misnamed)
      ensures Inv(old(State())) && Outcome(State(), ret) == EnterRoot(old(State()), old(next), role, h, name, strategy)
      ensures |old(sent)| <= |sent| && sent[..|old(sent)|] == old(sent)
      ensures if ret == SUCCESS && role.Subscriber? && [name] in old(scopeIndex)
              then Briefed(State(), scopeIndex[[name]], h, localProxy, sent[|old(sent)|..])
              else sent == old(sent)
    {
      hide Good, SetHost, NewRoot, Inv, Briefed, TouchedBy;
      GoodParts();
      if [name] !in scopeIndex {
        var r := CreateRoot(name, strategy);
        NewRootNode(old(State()), r, name, strategy);
        var added := Enter(role, r, [name], h);
        NoItemsTouched(NewRoot(old(State()), r, name, strategy), role, r);
        ret := SUCCESS;
      } else {
        IndexedScope(State(), [name]);
        var r := scopeIndex[[name]];
        if nodes[r].strategy == strategy {
          ret := EnterExistingScope(role, r, [name], h);
        } else {
          ret := STRATEGY_MISMATCH;
        }
      }
    }

    method EnterExistingScope(role: Role, r: Ref, full: Id, h: Host) returns (ret: nat)
      requires Good() && r in nodes && full in nodes[r].ids && nodes[r].Scope?
      modifies this`nodes, this`hosts, this`sent, this`stale, this`misnamed
      ensures Good() && stale <= old(stale) && misnamed <= old(misnamed)
      ensures Outcome(State(), ret) == EnterExisting(old(State()), role, r, full, h)
      ensures |old(sent)| <= |sent| && sent[..|old(sent)|] == old(sent)
      ensures if ret == SUCCESS && role.Subscriber? then Briefed(State(), r, h, localProxy, sent[|old(sent)|..])
              else sent == old(sent)
    {
      hide Good, SetHost, AllNoticed, AllAnnounced;
      ghost var st, n := State(), |sent|;
      var added := Enter(role, r, full, h);
      if added {
        ret := SUCCESS;
        SetHostShape(st, role, r, full, h, true);
        if role.Subscriber? {
          NotifySubscopes(r, h);
          ghost var mid := sent;
          AnnounceItems(r);
          assert sent[n..][..|mid| - n] == mid[n..];
          assert sent[n..][|mid| - n..] == sent[|mid|..];
          assert sent[..n] == mid[..n];
          BriefedInTwo(State(), r, h, localProxy, sent[n..], |mid| - n);
        }
      } else {
        ret := EXISTS;
      }
    }

    /** Publishes or subscribes to a scope below an existing one. */
    method EnterInnerScope(role: Role, h: Host, name: Fragment, prefix: Id, strategy: nat) returns (ret: nat)
      requires Good()
      modifies this`nodes, this`scopeIndex, this`pubIndex, this`hosts, this`next, this`sent, this`stale, this`misnamed
      ensures Good() && stale <= old(stale) && misnamed <= old(misnamed)
      ensures Inv(old(State())) && old(next) !in old(nodes)
      ensures Outcome(State(), ret) == EnterScope(old(State()), old(next), role, h, name, prefix, strategy)
      ensures |old(sent)| <= |sent| && sent[..|old(sent)|] == old(sent)
      ensures ret != SUCCESS ==> sent == old(sent)
      ensures ret == SUCCESS && prefix + [name] !in old(scopeIndex) ==> NewScopeNoticed(State(), prefix, prefix + [name], localProxy, sent[|old(sent)|..])
      ensures ret == SUCCESS && prefix + [name] in old(scopeIndex) ==>
        if role.Subscriber? then Briefed(State(), scopeIndex[prefix + [name]], h, localProxy, sent[|old(sent)|..]) else sent == old(sent)
    {
      hide Good, SetHost, NewChild, Inv, Briefed, TouchedBy, EnterExisting;
      var fullID := prefix + [name];
      GoodParts();
      if fullID !in pubIndex {
        if prefix in scopeIndex {
          IndexedScope(State(), prefix);
          var f := scopeIndex[prefix];
          if fullID !in scopeIndex {
            if nodes[f].strategy == strategy {
              EnterNewScope(role, h, f, name, prefix, strategy);
              ret := SUCCESS;
            } else {
              ret := STRATEGY_MISMATCH;
            }
          } else {
            IndexedScope(State(), fullID);
            var r := scopeIndex[fullID];
            if nodes[r].strategy == strategy {
              ret := EnterExistingScope(role, r, fullID, h);
              ExistingIndex(old(State()), role, r, fullID, h);
            } else {
              ret := STRATEGY_MISMATCH;
            }
          }
        } else {
          ret := FATHER_DOES_NOT_EXIST;
        }
      } else {
        ret := INFO_ITEM_WITH_SAME_ID;
      }
    }

    method EnterNewScope(role: Role, h: Host, f: Ref, name: Fragment, prefix: Id, strategy: nat)
      requires Good() && prefix in scopeIndex && f == scopeIndex[prefix] && f in nodes && nodes[f].Scope? && prefix in nodes[f].ids
      requires prefix + [name] !in scopeIndex && prefix + [name] !in pubIndex
      modifies this`nodes, this`scopeIndex, this`pubIndex, this`hosts, this`next, this`sent, this`stale, this`misnamed
      ensures Good() && stale == old(stale) && misnamed == old(misnamed) && old(next) !in old(nodes)
      ensures NewAt(NewChild(old(State()), f, old(next), true, name, strategy), f, old(next), true, strategy, prefix + [name])
      ensures State() == SetHost(NewChild(old(State()), f, old(next), true, name, strategy), role, old(next), prefix + [name], h, true)
      ensures |old(sent)| <= |sent| && sent[..|old(sent)|] == old(sent)
      ensures NewScopeNoticed(State(), prefix, prefix + [name], localProxy, sent[|old(sent)|..])
    {
      hide Good, SetHost, NewChild, NewAt, TouchedBy, Notice, MembersOf;
      ghost var n := |sent|;
      var r := EnterNewChild(role, h, f, true, name, prefix, strategy);
      NoItemsTouched(State(), role, r);
      var subs := GetMembers(f, Subscriber, {});
      assert subs == MembersOf(nodes[f], Subscriber);
      NotifySubscribers(true, nodes[r].ids.Keys, nodes[r].strategy, subs);
      assert sent[n..] == Notice(true, nodes[r].ids.Keys, nodes[r].strategy, subs, localProxy);
    }

    /** A new node below f with one host entered. */
    method EnterNewChild(role: Role, h: Host, f: Ref, scope: bool, name: Fragment, prefix: Id, strategy: nat) returns (r: Ref)
      requires Good() && f in nodes && nodes[f].Scope? && prefix in nodes[f].ids
      requires prefix + [name] !in scopeIndex && prefix + [name] !in pubIndex
      modifies this`nodes, this`scopeIndex, this`pubIndex, this`hosts, this`next, this`stale, this`misnamed
      ensures Good() && r == old(next) && r !in old(nodes)
      ensures NewAt(NewChild(old(State()), f, r, scope, name, strategy), f, r, scope, strategy, prefix + [name])
      ensures State() == SetHost(NewChild(old(State()), f, r, scope, name, strategy), role, r, prefix + [name], h, true)
      ensures NewIndexed(old(State()), State(), f, r, scope, prefix, name) && (scope ==> nodes[r].items == {})
      ensures stale == old(stale) + TouchedBy(State(), role, r)
      ensures misnamed == old(misnamed) + TouchedBy(State(), role, r)
    {
      hide Good, SetHost, NewChild, NewAt, TouchedBy;
      ghost var st := State();
      GoodParts();
      r := CreateChild(f, prefix, scope, name, strategy);
      ghost var st1 := State();
      NewAtParts(st1, f, r, scope, strategy, prefix + [name]);
      SetHostShape(st1, role, r, prefix + [name], h, true);
      var added := Enter(role, r, prefix + [name], h);
      NewIndex(st, f, r, scope, name, strategy, prefix);
      TouchedAlike(st1, State(), role, r);
    }

    /** Advertises or subscribes to an item below an existing scope. */
    method EnterInfo(role: Role, h: Host, name: Fragment, prefix: Id, strategy: nat) returns (ret: nat)
      requires Good()
      modifies this`nodes, this`scopeIndex, this`pubIndex, this`hosts, this`next, this`sent, this`stale, this`misnamed
      ensures Good() && stale <= old(stale) && misnamed <= old(misnamed)
      ensures Inv(old(State())) && old(next) !in old(nodes)
      ensures Outcome(State(), ret) == EnterItem(old(State()), old(next), role, h, name, prefix, strategy)
      ensures ret != SUCCESS || (role.Subscriber? && prefix + [name] !in old(pubIndex)) ==> sent == old(sent)
      ensures ret == SUCCESS && (role.Publisher? || prefix + [name] in old(pubIndex)) ==>
        ItemAnnounced(State(), prefix + [name], old(sent), sent)
    {
      hide Good, SetHost, NewChild, Inv, TouchedBy, EnterExisting, ItemAnnounced;
      var fullID := prefix + [name];
      GoodParts();
      if prefix in scopeIndex {
        IndexedScope(State(), prefix);
        var f := scopeIndex[prefix];
        if fullID !in pubIndex {
          if fullID !in scopeIndex {
            if nodes[f].strategy == strategy {
              EnterNewItem(role, h, f, name, prefix, strategy);
              ret := SUCCESS;
            } else {
              ret := STRATEGY_MISMATCH;
            }
          } else {
            ret := SCOPE_WITH_SAME_ID;
          }
        } else {
          if nodes[f].strategy == strategy {
            ret := EnterExistingItem(role, h, fullID);
          } else {
            ret := STRATEGY_MISMATCH;
          }
        }
      } else {
        ret := FATHER_DOES_NOT_EXIST;
      }
    }

    method EnterExistingItem(role: Role, h: Host, full: Id) returns (ret: nat)
      requires Good() && full in pubIndex
      modifies this`nodes, this`hosts, this`sent, this`stale, this`misnamed
      ensures Good() && stale <= old(stale) && misnamed <= old(misnamed)
      ensures old(pubIndex)[full] in old(nodes) && full in old(nodes)[old(pubIndex)[full]].ids
      ensures Outcome(State(), ret) == EnterExisting(old(State()), role, old(pubIndex)[full], full, h)
      ensures if ret == SUCCESS then ItemAnnounced(State(), full, old(sent), sent) else sent == old(sent)
    {
      hide Good, SetHost, Announce, Audience;
      GoodParts();
      IndexedItem(State(), full);
      var r := pubIndex[full];
      ghost var st := State();
      var added := Enter(role, r, full, h);
      if added {
        SetHostShape(st, role, r, full, h, true);
        AnnounceItem(r);
        ret := SUCCESS;
      } else {
        ret := EXISTS;
      }
    }

    method EnterNewItem(role: Role, h: Host, f: Ref, name: Fragment, prefix: Id, strategy: nat)
      requires Good() && f in nodes && nodes[f].Scope? && prefix in nodes[f].ids
      requires prefix + [name] !in scopeIndex && prefix + [name] !in pubIndex
      modifies this`nodes, this`scopeIndex, this`pubIndex, this`hosts, this`next, this`sent, this`stale, this`misnamed
      ensures Good() && stale <= old(stale) && misnamed <= old(misnamed) && old(next) !in old(nodes)
      ensures NewAt(NewChild(old(State()), f, old(next), false, name, strategy), f, old(next), false, strategy, prefix + [name])
      ensures State() == SetHost(NewChild(old(State()), f, old(next), false, name, strategy), role, old(next), prefix + [name], h, true)
      ensures if role.Publisher? then ItemAnnounced(State(), prefix + [name], old(sent), sent) else sent == old(sent)
    {
      hide Good, SetHost, NewChild, NewAt, Announce, Audience, MembersOf;
      var r := EnterNewChild(role, h, f, false, name, prefix, strategy);
      if role.Publisher? {
        AnnounceItem(r);
      } else {
        NewSubscriberOnly(NewChild(old(State()), f, r, false, name, strategy), f, r, strategy, prefix + [name], h);
        ForgetUnpublished(r);
      }
    }

    /** Nothing need be said about an item nobody publishes. */
    ghost method ForgetUnpublished(r: Ref)
      requires Good() && r in nodes && MembersOf(nodes[r], Publisher) == {}
      modifies this`stale, this`misnamed
      ensures Good() && State() == old(State()) && stale == old(stale) - {r}
      ensures misnamed == old(misnamed) - {r}
    {
      hide Inv, Mirror, MembersOf, Fresh, Named;
      FreshWeaker(State(), sent, stale, stale - {r} + {r});
      UnpublishedFresh(State(), sent, stale - {r}, r);
      UnpublishedNamed(State(), sent, misnamed, r);
      stale, misnamed := stale - {r}, misnamed - {r};
    }

    lemma GoodParts()
      requires Good()
      ensures Inv(State()) && Valid(State()) && Indexed(State()) && Links(State()) && next !in nodes
    {
    }

    /** Publishes an existing scope a second time, under another father. */
    method RepublishInnerScope(h: Host, id: Id, prefix: Id, strategy: nat) returns (ret: nat)
      requires Good() && |id| >= 2 && NoCycle(State(), id, prefix, strategy)
      modifies this`nodes, this`scopeIndex, this`pubIndex, this`hosts, this`sent, this`stale, this`misnamed
      ensures Good() && stale == old(stale) && Inv(old(State()))
      ensures misnamed == old(misnamed) + Relabelled(old(State()), id, prefix, strategy)
      ensures EnterEffect(old(State()), Outcome(State(), ret), Publisher, h, prefix + [Last(id)], true)
      ensures match PlanScope(old(State()), id, prefix, strategy)
              case Refuse(code) => ret == code && sent == old(sent)
              case EnterAt(r) =>
                && r in old(nodes) && prefix + [Last(id)] in old(nodes)[r].ids && sent == old(sent)
                && Outcome(State(), ret) == EnterExisting(old(State()), Publisher, r, prefix + [Last(id)], h)
              case LinkTo(f, r) =>
                && ret == SUCCESS && LinkedAndEntered(old(State()), State(), f, r, prefix + [Last(id)], h)
                && f in nodes && r in nodes
                && sent == old(sent) + Notice(true, nodes[r].ids.Keys - {id}, nodes[r].strategy, MembersOf(nodes[f], Subscriber), localProxy)
      ensures ret != WRONG_IDS && (ret != SUCCESS ==> sent == old(sent))
    {
      hide Good, SetHost, Inv, Mirror, EnterEffect, EnterExisting, NotAbove, LinkedAndEntered;
      var suffixID := Last(id);
      var fullID := prefix + [suffixID];
      GoodParts();
      ghost var st := State();
      Refused(st, h, fullID, true);
      if fullID in pubIndex {
        return INFO_ITEM_WITH_SAME_ID;
      }
      if prefix !in scopeIndex {
        return FATHER_DOES_NOT_EXIST;
      }
      if id !in scopeIndex {
        return SCOPE_DOES_NOT_EXIST;
      }
      IndexedScope(State(), prefix);
      IndexedScope(State(), id);
      var f := scopeIndex[prefix];
      if fullID !in scopeIndex {
        if nodes[f].strategy != strategy {
          return STRATEGY_MISMATCH;
        }
        LinkScopeAndNotify(h, id, prefix, strategy);
        ret := SUCCESS;
      } else {
        IndexedScope(State(), fullID);
        var r := scopeIndex[fullID];
        if nodes[r].strategy != strategy {
          return STRATEGY_MISMATCH;
        }
        var added := Enter(Publisher, r, fullID, h);
        ret := if added then SUCCESS else EXISTS;
        ExistingIs(st, Publisher, r, fullID, h);
        EnterExistingEffect(st, Publisher, r, fullID, h);
      }
    }

    method LinkScopeAndNotify(h: Host, id: Id, prefix: Id, ghost strategy: nat)
      requires Good() && |id| >= 2 && PlanScope(State(), id, prefix, strategy).LinkTo? && NoCycle(State(), id, prefix, strategy)
      requires prefix in scopeIndex && id in scopeIndex
      modifies this`nodes, this`scopeIndex, this`pubIndex, this`hosts, this`sent, this`stale, this`misnamed
      ensures Good() && stale == old(stale) && Inv(old(State()))
      ensures misnamed == old(misnamed) + Relabelled(old(State()), id, prefix, strategy)
      ensures EnterEffect(old(State()), Outcome(State(), SUCCESS), Publisher, h, prefix + [Last(id)], true)
      ensures var f, r := old(scopeIndex)[prefix], old(scopeIndex)[id];
        && LinkedAndEntered(old(State()), State(), f, r, prefix + [Last(id)], h) && f in nodes && r in nodes
        && sent == old(sent) + Notice(true, nodes[r].ids.Keys - {id}, nodes[r].strategy, MembersOf(nodes[f], Subscriber), localProxy)
    {
      hide Good, SetHost, Inv, Mirror, EnterEffect, NotAbove, TouchedBy, Notice, MembersOf, LinkedAndPropagated, CanLink;
      ghost var st := State();
      GoodParts();
      var f, r := scopeIndex[prefix], scopeIndex[id];
      IndexedScope(st, id);
      PlanLink(st, id, prefix, PlanScope(st, id, prefix, strategy));
      MayLink(st, f, prefix, r);
      LinkUnder(f, prefix, r);
      ghost var st1 := State();
      LinkEnterEffect(st, id, prefix, PlanScope(st, id, prefix, strategy), st1, h);
      EmptyPlace(st, st1, f, r, prefix);
      var added := Enter(Publisher, r, prefix + [Last(id)], h);
      SetHostShape(st1, Publisher, r, prefix + [Last(id)], h, true);
      PublisherTouchesNoItem(st1, r);
      var subs := GetMembers(f, Subscriber, {});
      assert subs == MembersOf(nodes[f], Subscriber);
      NotifySubscribers(true, nodes[r].ids.Keys - {id}, nodes[r].strategy, subs);
    }

    /** Advertises an existing item a second time, under another father. */
    method ReadvertiseInfo(h: Host, id: Id, prefix: Id, strategy: nat) returns (ret: nat)
      requires Good() && |id| >= 2
      modifies this`nodes, this`scopeIndex, this`pubIndex, this`hosts, this`sent, this`stale, this`misnamed
      ensures Good() && stale <= old(stale) && misnamed <= old(misnamed) && Inv(old(State()))
      ensures EnterEffect(old(State()), Outcome(State(), ret), Publisher, h, prefix + [Last(id)], false)
      ensures if ret == SUCCESS then ItemAnnounced(State(), prefix + [Last(id)], old(sent), sent) else sent == old(sent)
      ensures match PlanItem(old(State()), id, prefix, strategy)
              case Refuse(code) => ret == code
              case EnterAt(r) =>
                && r in old(nodes) && prefix + [Last(id)] in old(nodes)[r].ids
                && Outcome(State(), ret) == EnterExisting(old(State()), Publisher, r, prefix + [Last(id)], h)
              case LinkTo(f, r) => ret == SUCCESS && LinkedAndEntered(old(State()), State(), f, r, prefix + [Last(id)], h)
    {
      hide Good, SetHost, Inv, Mirror, EnterEffect, EnterExisting, LinkedAndEntered, ItemAnnounced;
      var suffixID := Last(id);
      var fullID := prefix + [suffixID];
      GoodParts();
      ghost var st := State();
      Refused(st, h, fullID, false);
      if fullID in scopeIndex {
        return SCOPE_WITH_SAME_ID;
      }
      if prefix !in scopeIndex {
        return FATHER_DOES_NOT_EXIST;
      }
      if id !in pubIndex {
        return INFO_DOES_NOT_EXIST;
      }
      IndexedScope(State(), prefix);
      var f := scopeIndex[prefix];
      if fullID !in pubIndex {
        if nodes[f].strategy != strategy {
          return STRATEGY_MISMATCH;
        }
        LinkItemAndAnnounce(h, id, prefix, strategy);
        ret := SUCCESS;
      } else {
        if nodes[f].strategy != strategy {
          return STRATEGY_MISMATCH;
        }
        IndexedItem(st, fullID);
        EnterExistingEffect(st, Publisher, pubIndex[fullID], fullID, h);
        ret := EnterExistingItem(Publisher, h, fullID);
      }
    }

    method LinkItemAndAnnounce(h: Host, id: Id, prefix: Id, ghost strategy: nat)
      requires Good() && |id| >= 2 && PlanItem(State(), id, prefix, strategy).LinkTo?
      requires prefix in scopeIndex && id in pubIndex
      modifies this`nodes, this`scopeIndex, this`pubIndex, this`hosts, this`sent, this`stale, this`misnamed
      ensures Good() && stale <= old(stale) && misnamed <= old(misnamed)
      ensures EnterEffect(old(State()), Outcome(State(), SUCCESS), Publisher, h, prefix + [Last(id)], false)
      ensures LinkedAndEntered(old(State()), State(), old(scopeIndex)[prefix], old(pubIndex)[id], prefix + [Last(id)], h)
      ensures ItemAnnounced(State(), prefix + [Last(id)], old(sent), sent)
    {
      hide Good, SetHost, Inv, Mirror, EnterEffect, Announce, Audience, LinkedAndPropagated, CanLink, Indexed, Links;
      ghost var st := State();
      GoodParts();
      var f, r := scopeIndex[prefix], pubIndex[id];
      IndexedItem(st, id);
      PlanLink(st, id, prefix, PlanItem(st, id, prefix, strategy));
      MayLink(st, f, prefix, r);
      BelowItem(st, r);
      LinkUnder(f, prefix, r);
      ghost var st1 := State();
      LinkEnterEffect(st, id, prefix, PlanItem(st, id, prefix, strategy), st1, h);
      EmptyPlace(st, st1, f, r, prefix);
      var added := Enter(Publisher, r, prefix + [Last(id)], h);
      SetHostShape(st1, Publisher, r, prefix + [Last(id)], h, true);
      ItemIndexed(st1, r, prefix + [Last(id)]);
      AnnounceItem(r);
    }

    /** publish_scope: a root scope, an inner scope, or an inner scope once more. */
    method PublishScope(h: Host, id: Id, prefix: Id, strategy: nat) returns (ret: nat)
      requires Good() && (|id| >= 2 && prefix != [] ==> NoCycle(State(), id, prefix, strategy))
      modifies this`nodes, this`scopeIndex, this`pubIndex, this`hosts, this`next, this`sent, this`stale, this`misnamed
      ensures Good() && stale <= old(stale) && Inv(old(State()))
      ensures misnamed <= old(misnamed) + if |id| >= 2 && prefix != [] then Relabelled(old(State()), id, prefix, strategy) else {}
      ensures (prefix == [] && |id| != 1) || id == [] <==> ret == WRONG_IDS
      ensures id != [] ==> EnterEffect(old(State()), Outcome(State(), ret), Publisher, h, prefix + [Last(id)], true)
      ensures id == [] ==> State() == old(State())
      ensures prefix == [] && |id| == 1 ==> RootCode(old(State()), Publisher, h, id[0], strategy, ret)
      ensures prefix != [] && id != [] ==>
        ScopeCode(old(State()), Publisher, h, prefix, Last(id), if |id| == 1 then {} else {id}, strategy, ret)
      ensures |id| == 1 && ret == SUCCESS ==> NodeMade(old(State()), State(), true, prefix, id[0], strategy)
      ensures |id| > 1 && ret == SUCCESS ==> AlsoKnownAs(old(State()), State(), true, id, prefix + [Last(id)])
      ensures ret != SUCCESS ==> sent == old(sent)
      ensures ret == SUCCESS ==>
        |old(sent)| <= |sent| && sent[..|old(sent)|] == old(sent)
        && PublishedNews(old(State()), State(), id, prefix, strategy, localProxy, sent[|old(sent)|..])
      ensures |id| == 1 && prefix != [] && prefix + id !in old(scopeIndex) && ret == SUCCESS ==>
        NewScopeTold(State(), prefix, prefix + id, strategy, localProxy, sent[|old(sent)|..])
      ensures NoticesSay(old(sent), sent, true)
    {
      hide Good, EnterEffect, RootCode, ScopeCode, NodeMade, AlsoKnownAs, NewScopeTold, NoticesSay, LinkedAndEntered, EnterExisting, NoCycle, Inv, Mirror, NewScopeNoticed, PublishedNews, PlanScope, Relabelled, Notice, EnterRoot, EnterScope;
      GoodParts();
      if prefix == [] && |id| == 1 {
        EnterRootEffect(State(), next, Publisher, h, id[0], strategy);
        ret := EnterRootScope(Publisher, h, id[0], strategy);
        EffectCode(old(State()), old(next), Publisher, h, id[0], prefix, strategy);
        RootServed(old(State()), old(next), Publisher, h, id[0], strategy);
        assert prefix + [Last(id)] == [id[0]];
        NewsIs(old(sent), sent);
        FirstNews(old(State()), State(), id, prefix, strategy, localProxy, sent[|old(sent)|..], ret);
      } else if prefix != [] && |id| == 1 {
        EnterScopeEffect(State(), next, Publisher, h, id[0], prefix, strategy);
        EffectCode(State(), next, Publisher, h, id[0], prefix, strategy);
        ret := EnterInnerScope(Publisher, h, id[0], prefix, strategy);
        ScopeServed(old(State()), old(next), Publisher, h, id[0], prefix, strategy);
        assert prefix + id == prefix + [id[0]];
        GoodParts();
        if ret == SUCCESS && prefix + [id[0]] !in old(scopeIndex) {
          NewScopeIsTold(old(State()), State(), prefix, id[0], strategy, localProxy, sent[|old(sent)|..]);
        }
        NewsIs(old(sent), sent);
        FirstNews(old(State()), State(), id, prefix, strategy, localProxy, sent[|old(sent)|..], ret);
      } else if prefix != [] && |id| > 1 {
        ret := RepublishInnerScope(h, id, prefix, strategy);
        RepublishedNews(old(State()), State(), id, prefix, strategy, localProxy, ret, old(sent), sent);
        GoodParts();
        ScopeRepublished(old(State()), State(), h, id, prefix, strategy, ret);
      } else {
        ret := WRONG_IDS;
        if id != [] {
          Refused(State(), h, prefix + [Last(id)], true);
        }
      }
      NewsIs(old(sent), sent);
      if ret == SUCCESS {
        PublishedSays(old(State()), State(), id, prefix, strategy, localProxy, sent[|old(sent)|..]);
      }
      NewsSay(old(sent), sent[|old(sent)|..], true);
      assert sent == old(sent) + sent[|old(sent)|..];
    }

    /** publish_info: an item, or an item once more. */
    method PublishInfo(h: Host, id: Id, prefix: Id, strategy: nat) returns (ret: nat)
      requires Good()
      modifies this`nodes, this`scopeIndex, this`pubIndex, this`hosts, this`next, this`sent, this`stale, this`misnamed
      ensures Good() && stale <= old(stale) && misnamed <= old(misnamed)
      ensures prefix == [] || id == [] <==> ret == WRONG_IDS
      ensures id != [] ==> EnterEffect(old(State()), Outcome(State(), ret), Publisher, h, prefix + [Last(id)], false)
      ensures prefix != [] && id != [] ==>
        ItemCode(old(State()), Publisher, h, prefix, Last(id), if |id| == 1 then {} else {id}, strategy, ret)
      ensures |id| == 1 && ret == SUCCESS ==> NodeMade(old(State()), State(), false, prefix, id[0], strategy)
      ensures |id| > 1 && ret == SUCCESS ==> AlsoKnownAs(old(State()), State(), false, id, prefix + [Last(id)])
      ensures id != [] && ret == SUCCESS ==> ItemAnnounced(State(), prefix + [Last(id)], old(sent), sent)
      ensures ret != SUCCESS ==> State() == old(State()) && sent == old(sent)
    {
      hide Good, EnterEffect, Inv, Mirror, ItemAnnounced, ItemCode, NodeMade, AlsoKnownAs, LinkedAndEntered, EnterExisting, EnterItem, PlanItem;
      GoodParts();
      if prefix != [] && |id| == 1 {
        EnterItemEffect(State(), next, Publisher, h, id[0], prefix, strategy);
        EffectCode(State(), next, Publisher, h, id[0], prefix, strategy);
        ret := EnterInfo(Publisher, h, id[0], prefix, strategy);
        ItemServed(old(State()), old(next), Publisher, h, id[0], prefix, strategy);
      } else if prefix != [] && |id| > 1 {
        ret := ReadvertiseInfo(h, id, prefix, strategy);
        GoodParts();
        ItemReadvertised(old(State()), State(), h, id, prefix, strategy, ret);
      } else {
        ret := WRONG_IDS;
        if id != [] {
          Refused(State(), h, prefix + [Last(id)], false);
        }
      }
      if id != [] {
        EffectUnchanged(old(State()), Outcome(State(), ret), Publisher, h, prefix + [Last(id)], false);
      }
    }

    /** subscribe_scope: a root scope or an inner scope, never several fragments at once. */
    method SubscribeScope(h: Host, id: Id, prefix: Id, strategy: nat) returns (ret: nat)
      requires Good()
      modifies this`nodes, this`scopeIndex, this`pubIndex, this`hosts, this`next, this`sent, this`stale, this`misnamed
      ensures Good() && stale <= old(stale) && misnamed <= old(misnamed)
      ensures |id| != 1 <==> ret == WRONG_IDS
      ensures |id| != 1 ==> State() == old(State()) && sent == old(sent)
      ensures |id| == 1 ==> EnterEffect(old(State()), Outcome(State(), ret), Subscriber, h, prefix + id, true)
      ensures prefix == [] && |id| == 1 ==> RootCode(old(State()), Subscriber, h, id[0], strategy, ret)
      ensures prefix != [] && |id| == 1 ==> ScopeCode(old(State()), Subscriber, h, prefix, id[0], {}, strategy, ret)
      ensures |id| == 1 && ret == SUCCESS ==> NodeMade(old(State()), State(), true, prefix, id[0], strategy)
      ensures ret != SUCCESS ==> sent == old(sent)
      ensures ret == SUCCESS ==>
        |old(sent)| <= |sent| && sent[..|old(sent)|] == old(sent)
        && SubscribedNews(old(State()), State(), prefix, prefix + id, h, localProxy, sent[|old(sent)|..])
      ensures prefix != [] && prefix + id !in old(scopeIndex) && ret == SUCCESS ==>
        NewScopeTold(State(), prefix, prefix + id, strategy, localProxy, sent[|old(sent)|..])
      ensures NoticesSay(old(sent), sent, true)
    {
      hide Good, EnterEffect, Inv, Mirror, NewScopeNoticed, Briefed, RootCode, ScopeCode, NodeMade, NewScopeTold, NoticesSay, EnterRoot, EnterScope, SubscribedNews;
      GoodParts();
      if prefix == [] && |id| == 1 {
        EnterRootEffect(State(), next, Subscriber, h, id[0], strategy);
        EffectCode(State(), next, Subscriber, h, id[0], prefix, strategy);
        ret := EnterRootScope(Subscriber, h, id[0], strategy);
        RootServed(old(State()), old(next), Subscriber, h, id[0], strategy);
        assert prefix + id == [id[0]];
      } else if prefix != [] && |id| == 1 {
        EnterScopeEffect(State(), next, Subscriber, h, id[0], prefix, strategy);
        EffectCode(State(), next, Subscriber, h, id[0], prefix, strategy);
        ret := EnterInnerScope(Subscriber, h, id[0], prefix, strategy);
        ScopeServed(old(State()), old(next), Subscriber, h, id[0], prefix, strategy);
        assert prefix + id == prefix + [id[0]];
        GoodParts();
        if ret == SUCCESS && prefix + [id[0]] !in old(scopeIndex) {
          NewScopeIsTold(old(State()), State(), prefix, id[0], strategy, localProxy, sent[|old(sent)|..]);
        }
      } else {
        ret := WRONG_IDS;
      }
      GoodParts();
      NewsIs(old(sent), sent);
      if ret == SUCCESS {
        SubscribedIs(old(State()), State(), prefix, prefix + id, h, localProxy, sent[|old(sent)|..]);
        SubscribedSays(old(State()), State(), prefix, prefix + id, h, localProxy, sent[|old(sent)|..]);
      }
      NewsSay(old(sent), sent[|old(sent)|..], true);
      assert sent == old(sent) + sent[|old(sent)|..];
    }

    method SubscribeInfo(h: Host, id: Id, prefix: Id, strategy: nat) returns (ret: nat)
      requires Good()
      modifies this`nodes, this`scopeIndex, this`pubIndex, this`hosts, this`next, this`sent, this`stale, this`misnamed
      ensures Good() && stale <= old(stale) && misnamed <= old(misnamed)
      ensures prefix == [] || |id| != 1 <==> ret == WRONG_IDS
      ensures ret == WRONG_IDS ==> State() == old(State()) && sent == old(sent)
      ensures |id| == 1 ==> EnterEffect(old(State()), Outcome(State(), ret), Subscriber, h, prefix + id, false)
      ensures prefix != [] && |id| == 1 ==> ItemCode(old(State()), Subscriber, h, prefix, id[0], {}, strategy, ret)
      ensures ret == SUCCESS ==> NodeMade(old(State()), State(), false, prefix, id[0], strategy)
      ensures ret != SUCCESS || prefix + id !in old(pubIndex) ==> sent == old(sent)
      ensures ret == SUCCESS && prefix + id in old(pubIndex) ==> ItemAnnounced(State(), prefix + id, old(sent), sent)
    {
      hide Good, EnterEffect, Inv, Mirror, ItemAnnounced, ItemCode, NodeMade, EnterItem;
      GoodParts();
      if prefix != [] && |id| == 1 {
        EnterItemEffect(State(), next, Subscriber, h, id[0], prefix, strategy);
        EffectCode(State(), next, Subscriber, h, id[0], prefix, strategy);
        ret := EnterInfo(Subscriber, h, id[0], prefix, strategy);
        ItemServed(old(State()), old(next), Subscriber, h, id[0], prefix, strategy);
        assert prefix + id == prefix + [id[0]];
      } else {
        ret := WRONG_IDS;
        if |id| == 1 {
          Unchanged(State(), WRONG_IDS, Subscriber, h, prefix + id, false);
        }
      }
    }

    // ---------- unpublishing and unsubscribing ----------

    /** unpublish_info: the item is announced again, unless nothing is left of it. */
    method UnpublishInfo(h: Host, name: Fragment, prefix: Id, strategy: nat) returns (ret: nat)
      requires Good()
      modifies this`nodes, this`scopeIndex, this`pubIndex, this`hosts, this`sent, this`stale, this`misnamed
      ensures Good() && stale <= old(stale) && misnamed <= old(misnamed)
      ensures Inv(old(State())) && Outcome(State(), ret) == LeaveItem(old(State()), Publisher, h, name, prefix, strategy)
      ensures ret != SUCCESS ==> sent == old(sent)
      ensures ret == SUCCESS ==> LeftAnnounced(old(State()), State(), prefix + [name], old(sent), sent)
    {
      hide Good, SetHost, Inv, Unused, DropNode, DropBranch, Announce, Audience, Prune;
      var fullID := prefix + [name];
      GoodParts();
      if fullID !in pubIndex {
        return INFO_DOES_NOT_EXIST;
      }
      ItemPlace(State(), prefix, name);
      var f, r := scopeIndex[prefix], pubIndex[fullID];
      if nodes[f].strategy != strategy {
        return STRATEGY_MISMATCH;
      }
      if h !in nodes[r].ids[fullID].pubs {
        return DOES_NOT_EXIST;
      }
      SetHostShape(State(), Publisher, r, fullID, h, false);
      Leave(Publisher, r, fullID, h);
      ItemTouched(old(State()), Publisher, r);
      ghost var st1 := State();
      var deleted := PruneItem(f, r);
      if !deleted {
        AnnounceItem(r);
      } else {
        GoneIsUntouched(r);
      }
      ret := SUCCESS;
    }

    /** unsubscribe_info: the item is announced first and pruned afterwards. */
    method UnsubscribeInfo(h: Host, name: Fragment, prefix: Id, strategy: nat) returns (ret: nat)
      requires Good()
      modifies this`nodes, this`scopeIndex, this`pubIndex, this`hosts, this`sent, this`stale, this`misnamed
      ensures Good() && Inv(old(State()))
      ensures Outcome(State(), ret) == LeaveItem(old(State()), Subscriber, h, name, prefix, strategy)
      ensures ret != SUCCESS ==> sent == old(sent) && stale == old(stale) && misnamed == old(misnamed)
      ensures ret == SUCCESS ==>
        && prefix + [name] in old(pubIndex) && old(pubIndex)[prefix + [name]] in old(nodes)
        && var r := old(pubIndex)[prefix + [name]];
           && prefix + [name] in old(nodes)[r].ids
           && var mid := SetHost(old(State()), Subscriber, r, prefix + [name], h, false);
              && sent == old(sent) + Announce(mid, r, Audience(mid, r))
      ensures stale <= old(stale) + Outdated(Unsubscribed(old(State()), h, prefix + [name]), State(), prefix, prefix + [name])
      ensures misnamed <= old(misnamed) + BranchLost(old(State()), State(), prefix + [name])
    {
      hide Good, SetHost, Inv, Unused, Prune, Announce, Audience, Outdated;
      var fullID := prefix + [name];
      GoodParts();
      if fullID !in pubIndex {
        return INFO_DOES_NOT_EXIST;
      }
      ItemPlace(State(), prefix, name);
      var f, r := scopeIndex[prefix], pubIndex[fullID];
      if nodes[f].strategy != strategy {
        return STRATEGY_MISMATCH;
      }
      if h !in nodes[r].ids[fullID].subs {
        return DOES_NOT_EXIST;
      }
      SetHostShape(State(), Subscriber, r, fullID, h, false);
      Leave(Subscriber, r, fullID, h);
      ItemTouched(old(State()), Subscriber, r);
      AnnounceItem(r);
      ghost var st1 := State();
      GoodParts();
      ItemName(st1, r, prefix, name);
      PruneIndex(st1, f, r, prefix, fullID);
      PruneAnnounced(f, r, prefix, fullID, old(sent));
      ret := SUCCESS;
    }

    /** Prunes an item that has just been announced. */
    method PruneAnnounced(f: Ref, r: Ref, prefix: Id, full: Id, ghost sent0: seq<Message>)
      requires Good() && r in nodes && nodes[r].Item? && f in nodes && nodes[f].Scope? && f in nodes[r].fathers
      requires full in pubIndex && pubIndex[full] == r && prefix in scopeIndex && scopeIndex[prefix] == f
      requires full in Prune(State(), f, r).pubIndex <==> !Unused(State(), f, r)
      requires sent == sent0 + Announce(State(), r, Audience(State(), r))
      modifies this`nodes, this`scopeIndex, this`pubIndex, this`stale, this`misnamed
      ensures Good() && State() == Prune(old(State()), f, r)
      ensures stale <= old(stale) + Outdated(old(State()), State(), prefix, full)
      ensures misnamed <= old(misnamed) + BranchLost(old(State()), State(), full)
    {
      hide Good, Inv, Unused, DropNode, DropBranch, Announce, Audience, SurvivesDrop, FreshItem;
      ghost var st1 := State();
      GoodParts();
      var deleted := PruneItem(f, r);
      if r in nodes && State() != st1 {
        if Needs(State(), r) ==> FreshItem(State(), sent, r) {
          ForgetFresh(r);
        } else {
          DropNodeGone(st1, f, r);
          NotSurvived(st1, sent0, f, r);
        }
      }
    }

    /** Nothing is out of date about an item whose last message is current or not needed. */
    ghost method ForgetFresh(r: Ref)
      requires Good() && r in nodes && (Needs(State(), r) ==> FreshItem(State(), sent, r))
      modifies this`stale
      ensures Good() && State() == old(State()) && stale == old(stale) - {r}
    {
      hide Inv, Mirror, MembersOf, Named, FreshItem;
      stale := stale - {r};
    }

    /** Deletes item r, or its branch below f, if nobody is entered there; says whether r itself is gone. */
    method PruneItem(f: Ref, r: Ref) returns (deleted: bool)
      requires Good() && r in nodes && nodes[r].Item? && f in nodes && nodes[f].Scope? && f in nodes[r].fathers
      modifies this`nodes, this`scopeIndex, this`pubIndex, this`stale, this`misnamed
      ensures Good() && State() == Prune(old(State()), f, r) && deleted == (r !in nodes)
      ensures stale == old(stale) + if State() != old(State()) && r in nodes then {r} else {}
      ensures misnamed == old(misnamed) + if State() != old(State()) && r in nodes then {r} else {}
      ensures State() != old(State()) ==> Unused(old(State()), f, r)
      ensures r in nodes ==> nodes[r].Item?
    {
      hide Good, Unused, DropNode, DropBranch;
      var used := CheckForOtherPubSub(f, r);
      if used {
        return false;
      }
      if |nodes[r].fathers| == 1 {
        SingletonSet(nodes[r].fathers, f);
        DropNodeGone(State(), f, r);
        DeleteNode(f, r);
        deleted := true;
      } else {
        NotFatherless(State(), f, r);
        GoodParts();
        NotOwnFather(State(), r);
        DropBranchStays(State(), f, r);
        DeleteBranch(f, r);
        deleted := false;
      }
    }

    /** A reference no longer in use cannot be stale. */
    ghost method GoneIsUntouched(r: Ref)
      requires Good() && r !in nodes
      modifies this`stale, this`misnamed
      ensures Good() && State() == old(State()) && stale == old(stale) - {r}
      ensures misnamed == old(misnamed) - {r}
    {
      hide Inv, Mirror, MembersOf, Fresh, Named;
      FreshWeaker(State(), sent, stale, stale - {r} + {r});
      UnpublishedFresh(State(), sent, stale - {r}, r);
      UnpublishedNamed(State(), sent, misnamed, r);
      stale, misnamed := stale - {r}, misnamed - {r};
    }

    /** unsubscribe_scope: its items are announced, then it is pruned if nothing hangs below it. */
    method UnsubscribeScope(h: Host, name: Fragment, prefix: Id, strategy: nat) returns (ret: nat)
      requires Good()
      modifies this`nodes, this`scopeIndex, this`pubIndex, this`hosts, this`sent, this`stale, this`misnamed
      ensures Good() && stale <= old(stale) && misnamed <= old(misnamed)
      ensures Inv(old(State())) && Outcome(State(), ret) == LeaveScope(old(State()), Subscriber, h, name, prefix, strategy)
      ensures ret != SUCCESS ==> sent == old(sent)
      ensures ret == SUCCESS ==> LeftNotified(old(State()), h, prefix, prefix + [name], localProxy, old(sent), sent)
      ensures NoticesSay(old(sent), sent, false)
    {
      hide Good, SetHost, Inv, PruneScope, PruneNotice, AllAnnounced, TouchedBy, LeftNotified, NoticesSay;
      var fullID := prefix + [name];
      GoodParts();
      NothingSays(sent);
      if fullID !in scopeIndex {
        return SCOPE_DOES_NOT_EXIST;
      }
      ScopePlace(State(), prefix, name);
      var r := scopeIndex[fullID];
      if nodes[r].strategy != strategy {
        return STRATEGY_MISMATCH;
      }
      if h !in nodes[r].ids[fullID].subs {
        return DOES_NOT_EXIST;
      }
      SetHostShape(State(), Subscriber, r, fullID, h, false);
      Leave(Subscriber, r, fullID, h);
      ScopeTouched(old(State()), Subscriber, r);
      AnnounceItems(r);
      ghost var mid, announced := State(), sent;
      DropScopeIfUnused(prefix, name, r);
      LeftIntro(old(State()), mid, h, prefix, fullID, localProxy, old(sent), announced, sent);
      LeftSays(old(State()), h, prefix, fullID, localProxy, old(sent), sent);
      ret := SUCCESS;
    }

    /** Prunes a scope nothing hangs below, telling the father's subscribers. */
    method DropScopeIfUnused(prefix: Id, name: Fragment, r: Ref)
      requires Good() && prefix + [name] in scopeIndex && r == scopeIndex[prefix + [name]]
      modifies this`nodes, this`scopeIndex, this`pubIndex, this`sent, this`stale, this`misnamed
      ensures Good() && stale == old(stale) && misnamed == old(misnamed) && ScopeInPlace(old(State()), prefix, r)
      ensures State() == PruneScope(old(State()), prefix, r)
      ensures sent == old(sent) + PruneNotice(old(State()), prefix, prefix + [name], r, localProxy)
      ensures if prefix == [] then sent == old(sent)
              else DeletionTold(old(State()), State(), prefix, prefix + [name], localProxy, sent[|old(sent)|..])
    {
      hide Good, Inv, Unused, DropNode, DropBranch, DropRoot, Notice, MembersOf, DeletionTold;
      GoodParts();
      ScopePlace(State(), prefix, name);
      DeletionIsTold(State(), prefix, name, r, localProxy, sent);
      if nodes[r].children != {} || nodes[r].items != {} {
        return;
      }
      if prefix in scopeIndex {
        var f := scopeIndex[prefix];
        var used := CheckForOtherPubSub(f, r);
        if used {
          return;
        }
        var subs := GetMembers(f, Subscriber, {});
        assert subs == MembersOf(nodes[f], Subscriber);
        if |nodes[r].fathers| == 1 {
          SingletonSet(nodes[r].fathers, f);
          NotifySubscribers(false, nodes[r].ids.Keys, nodes[r].strategy, subs);
          DeleteNode(f, r);
        } else {
          NotFatherless(State(), f, r);
          NotifySubscribers(false, {prefix + [name]}, nodes[r].strategy, subs);
          DeleteBranch(f, r);
        }
      } else {
        var used := CheckForAnyPubSub(r);
        if !used {
          DeleteRoot(r);
        }
      }
    }

    /** unpublish_scope: first every item below under every identifier of the scope, then the scope. */
    method UnpublishScope(h: Host, name: Fragment, prefix: Id, strategy: nat) returns (ret: nat)
      requires Good()
      modifies this`nodes, this`scopeIndex, this`pubIndex, this`hosts, this`sent, this`stale, this`misnamed
      ensures Good() && stale <= old(stale) && misnamed <= old(misnamed)
      ensures |old(sent)| <= |sent| && sent[..|old(sent)|] == old(sent)
      ensures if prefix + [name] !in old(scopeIndex) then ret == SCOPE_DOES_NOT_EXIST && State() == old(State()) && sent == old(sent)
              else
                var r := old(scopeIndex)[prefix + [name]];
                && r in old(nodes)
                && if old(nodes)[r].strategy != strategy then ret == STRATEGY_MISMATCH && State() == old(State()) && sent == old(sent)
                   else ScopeUnpublished(old(State()), Outcome(State(), ret), h, name, prefix, strategy, r, localProxy, old(sent), sent)
      ensures LeaveCode(old(State()), true, Publisher, h, prefix, name, strategy, ret)
      ensures NoticesSay(old(sent), sent, false)
    {
      hide Good, SetHost, Inv, PruneScope, PruneNotice, TouchedBy, ItemsUnpublished, ScopeUnpublished, OnlyAbout, Mirror, LeaveCode, NoticesSay;
      var fullID := prefix + [name];
      GoodParts();
      UnpublishScopeCodes(State(), h, name, prefix, strategy);
      NothingSays(sent);
      if fullID !in scopeIndex {
        return SCOPE_DOES_NOT_EXIST;
      }
      ScopePlace(State(), prefix, name);
      var r := scopeIndex[fullID];
      if nodes[r].strategy != strategy {
        return STRATEGY_MISMATCH;
      }
      UnpublishItems(h, r);
      ghost var mid, between := State(), sent;
      FrameKeepsScope(old(State()), mid, h, r);
      GoodParts();
      if h in nodes[r].ids[fullID].pubs {
        SetHostShape(mid, Publisher, r, fullID, h, false);
        Leave(Publisher, r, fullID, h);
        PublisherTouchesNoItem(mid, r);
        DropScopeIfUnused(prefix, name, r);
        ret := SUCCESS;
      } else {
        ret := DOES_NOT_EXIST;
      }
      LeaveScopeIs(mid, h, name, prefix, strategy, r);
      OnlyAboutExtends(old(sent), between, old(nodes)[r].items);
      ScopeUnpublishedIntro(old(State()), mid, Outcome(State(), ret), h, name, prefix, strategy, r, localProxy, old(sent), between, sent);
      UnpublishedSays(mid, h, prefix, fullID, r, ret, localProxy, old(nodes)[r].items, old(sent), between, sent);
    }

    method UnpublishItems(h: Host, r: Ref)
      requires Good() && r in nodes && nodes[r].Scope?
      modifies this`nodes, this`scopeIndex, this`pubIndex, this`hosts, this`sent, this`stale, this`misnamed
      ensures Good() && stale <= old(stale) && misnamed <= old(misnamed)
      ensures OnlyAbout(old(sent), sent, old(nodes)[r].items)
      ensures ItemsUnpublished(old(State()), State(), h, r)
    {
      hide Good, Inv, Mirror, Unpublished, ItemFrame, OnlyAbout;
      NothingSent(sent, {});
      ghost var st := State();
      GoodParts();
      FrameNone(st);
      UnpublishedNone(st, h);
      assert IdsBelow(st, r, {}, r, {}) == {};
      var todo := nodes[r].items;
      ghost var done: set<Ref> := {};
      while todo != {}
        invariant Good() && stale <= old(stale) && misnamed <= old(misnamed) && done !! todo && done + todo == st.nodes[r].items
        invariant OnlyAbout(old(sent), sent, done)
        invariant Unpublished(st, State(), h, IdsBelow(st, r, done, r, {})) && ItemFrame(st, State(), done)
        decreases todo
      {
        var i :| i in todo;
        ghost var sent1 := sent;
        UnpublishItem(h, r, i, st, done);
        OnlyAboutMore(old(sent), sent1, sent, done, {i});
        assert done + todo == done + {i} + (todo - {i});
        todo, done := todo - {i}, done + {i};
      }
      assert done == st.nodes[r].items;
    }

    /** Unpublishes one item under every identifier of scope r. */
    method UnpublishItem(h: Host, r: Ref, i: Ref, ghost st: Rv, ghost done: set<Ref>)
      requires Good() && Inv(st) && r in st.nodes && st.nodes[r].Scope? && i in st.nodes[r].items && i !in done && done <= st.nodes[r].items
      requires Unpublished(st, State(), h, IdsBelow(st, r, done, r, {})) && ItemFrame(st, State(), done)
      modifies this`nodes, this`scopeIndex, this`pubIndex, this`hosts, this`sent, this`stale, this`misnamed
      ensures Good() && stale <= old(stale) && misnamed <= old(misnamed)
      ensures OnlyAbout(old(sent), sent, {i})
      ensures Unpublished(st, State(), h, IdsBelow(st, r, done + {i}, r, {})) && ItemFrame(st, State(), done + {i})
    {
      hide Good, Inv, Mirror, Unpublished, ItemFrame, LeaveItem, IdsBelow, OnlyAbout, LeftAnnounced;
      NothingSent(sent, {i});
      GoodParts();
      FrameStep(st, State(), State(), done, i);
      FrameItem(st, State(), done, r, i);
      InvIsSound(State(), i);
      var name := SuffixOf(i);
      var strategy := nodes[r].strategy;
      var ids := nodes[r].ids.Keys;
      ghost var part: set<Id> := {};
      BelowNone(st, r, done, r, i);
      while ids != {}
        invariant Good() && stale <= old(stale) && misnamed <= old(misnamed) && part !! ids && part + ids == st.nodes[r].ids.Keys
        invariant OnlyAbout(old(sent), sent, {i})
        invariant Unpublished(st, State(), h, IdsBelow(st, r, done, i, part)) && ItemFrame(st, State(), done + {i})
        decreases ids
      {
        var id :| id in ids;
        GoodParts();
        ghost var st1, sent1 := State(), sent;
        BelowBelongs(st, st1, done + {i}, r, i, id);
        FrameScope(st, st1, done + {i}, r);
        var ret := UnpublishInfo(h, name, id, strategy);
        LeaveItemEffect(st1, Publisher, h, name, id, strategy);
        if ret == SUCCESS {
          LeftAboutItem(st1, State(), i, id + [name], sent1, sent);
          OnlyAboutMore(old(sent), sent1, sent, {i}, {i});
          LeaveItemFrame(st1, Publisher, h, name, id, strategy);
        } else {
          LeaveItemRefused(st1, h, name, id, strategy);
          LeaveFailed(st1, Outcome(State(), ret), Publisher, h, id + [name]);
        }
        FrameStep(st, st1, State(), done + {i}, i);
        assert done + {i} + {i} == done + {i};
        UnpublishedMore(st, st1, Outcome(State(), ret), h, IdsBelow(st, r, done, i, part), id + [name]);
        IdsBelowStep(st, r, done, i, part, id);
        part, ids := part + {id}, ids - {id};
      }
      BelowAll(st, r, done, i, part);
    }

    /** Serves one request, whatever it is: nobody else's entries change, and the items whose last message may no longer
        state what holds are known. */
    method Serve(kind: Kind, h: Host, id: Id, prefix: Id, strategy: nat) returns (ret: nat)
      requires Good() && (kind.PublishScope? && |id| >= 2 && prefix != [] ==> NoCycle(State(), id, prefix, strategy))
      requires kind.UnpublishScope? || kind.UnpublishInfo? || kind.UnsubscribeScope? || kind.UnsubscribeInfo? ==> |id| == 1
      modifies this
      ensures Good() && Inv(old(State())) && OnlyHost(old(State()), State(), h)
      ensures stale <= old(stale) + MadeStale(old(State()), State(), kind, h, id, prefix)
      ensures misnamed <= old(misnamed) + MadeMisnamed(old(State()), State(), kind, id, prefix, strategy)
      ensures kind.PublishScope? || kind.SubscribeScope? || kind.PublishInfo? || kind.SubscribeInfo? ==>
        var role, scope := if kind.PublishScope? || kind.PublishInfo? then Publisher else Subscriber, kind.PublishScope? || kind.SubscribeScope?;
        && (ret == WRONG_IDS <==> id == [] || (prefix == [] && (!scope || |id| != 1)) || (role.Subscriber? && |id| != 1))
        && (ret == WRONG_IDS ==> State() == old(State()) && sent == old(sent))
        && (ret != WRONG_IDS ==>
              && EnterEffect(old(State()), Outcome(State(), ret), role, h, prefix + [Last(id)], scope)
              && EnterCode(old(State()), scope, role, h, id, prefix, strategy, ret))
      ensures kind.UnpublishScope? || kind.UnpublishInfo? || kind.UnsubscribeScope? || kind.UnsubscribeInfo? ==>
        var role, scope := if kind.UnpublishScope? || kind.UnpublishInfo? then Publisher else Subscriber, kind.UnpublishScope? || kind.UnsubscribeScope?;
        && LeaveCode(old(State()), scope, role, h, prefix, id[0], strategy, ret)
        && (kind.UnpublishScope? ==> ScopeLeft(old(State()), Outcome(State(), ret), h, prefix + id))
        && (!kind.UnpublishScope? ==> LeaveEffect(old(State()), Outcome(State(), ret), role, h, prefix + id))
      ensures kind.Unknown? ==> ret == UNKNOWN_REQUEST_TYPE && State() == old(State()) && sent == old(sent)
      ensures NoticesSay(old(sent), sent, kind.PublishScope? || kind.SubscribeScope?)
    {
      hide Good, Valid, Holds, NoCycle, EnterEffect, LeaveEffect, LeaveItem, LeaveScope, ScopeUnpublished, LeftNotified, LeftAnnounced,
        ItemAnnounced, Inv, RootCode, ScopeCode, ItemCode, LeaveCode, ScopeLeft, NoticesSay, NodeMade, AlsoKnownAs;
      GoodParts();
      ghost var st := State();
      assert |id| == 1 ==> prefix + id == prefix + [id[0]] == prefix + [Last(id)];
      match kind
      case PublishScope =>
        ret := PublishScope(h, id, prefix, strategy);
        if id != [] {
          EnterKeepsOthers(st, Outcome(State(), ret), Publisher, h, prefix + [Last(id)], true);
          EffectUnchanged(st, Outcome(State(), ret), Publisher, h, prefix + [Last(id)], true);
        }
      case PublishInfo =>
        ret := PublishInfo(h, id, prefix, strategy);
        NothingSays(old(sent));
        if id != [] {
          ItemAnnouncedSays(State(), prefix + [Last(id)], old(sent), sent);
          EnterKeepsOthers(st, Outcome(State(), ret), Publisher, h, prefix + [Last(id)], false);
        }
      case UnpublishScope =>
        ret := UnpublishScope(h, id[0], prefix, strategy);
        UnpublishedLeft(st, Outcome(State(), ret), h, id[0], prefix, strategy, localProxy, old(sent), sent);
        UnpublishKeepsOthers(st, State());
      case UnpublishInfo =>
        LeaveItemEffect(st, Publisher, h, id[0], prefix, strategy);
        LeaveItemCode(st, Publisher, h, id[0], prefix, strategy);
        ret := UnpublishInfo(h, id[0], prefix, strategy);
        ItemLeftSays(st, State(), prefix + id, old(sent), sent);
        LeaveKeepsOthers(st, Outcome(State(), ret), Publisher, h, prefix + [id[0]]);
      case SubscribeScope =>
        ret := SubscribeScope(h, id, prefix, strategy);
        if |id| == 1 {
          EnterKeepsOthers(st, Outcome(State(), ret), Subscriber, h, prefix + id, true);
        }
      case SubscribeInfo =>
        ret := SubscribeInfo(h, id, prefix, strategy);
        ItemAnnouncedSays(State(), prefix + id, old(sent), sent);
        if |id| == 1 {
          EnterKeepsOthers(st, Outcome(State(), ret), Subscriber, h, prefix + id, false);
        }
      case UnsubscribeScope =>
        LeaveScopeEffect(st, Subscriber, h, id[0], prefix, strategy);
        LeaveScopeCode(st, Subscriber, h, id[0], prefix, strategy);
        ret := UnsubscribeScope(h, id[0], prefix, strategy);
        LeaveKeepsOthers(st, Outcome(State(), ret), Subscriber, h, prefix + [id[0]]);
      case UnsubscribeInfo =>
        LeaveItemEffect(st, Subscriber, h, id[0], prefix, strategy);
        LeaveItemCode(st, Subscriber, h, id[0], prefix, strategy);
        ret := UnsubscribeInfo(h, id[0], prefix, strategy);
        NothingSays(old(sent));
        if ret == SUCCESS {
          UnsubscribedSays(st, h, prefix + id, old(sent), sent);
        }
        LeaveKeepsOthers(st, Outcome(State(), ret), Subscriber, h, prefix + [id[0]]);
      case Unknown =>
        ret := UNKNOWN_REQUEST_TYPE;
        NothingSays(sent);
    }
  }

  lemma GraphParts(st: Rv, r: Ref)
    requires Graph(st) && r in st.nodes
    ensures forall f :: f in st.nodes[r].fathers ==> f in st.nodes && st.nodes[f].Scope?
    ensures Links(st) && Sound(st, r)
    ensures forall depth, bound :: Ranked(st, depth, bound) ==> r !in st.nodes[r].fathers
  {
    hide AllSound, Indexed, Siblings;
    assert NodeLinks(st, r);
    forall f | f in st.nodes[r].fathers ensures f in st.nodes && st.nodes[f].Scope? {
      assert FatherLink(st, r, f);
    }
    assert AllSound(st);
    SoundAt(st, r);
  }

  lemma SoundAt(st: Rv, r: Ref)
    requires AllSound(st) && r in st.nodes
    ensures Sound(st, r)
  {
  }

  lemma UpdatedNode(st: Rv, st': Rv, r: Ref)
    requires r in st.nodes && Grows(st, st')
    ensures r in st'.nodes && SameNode(st.nodes[r], st'.nodes[r])
  {
    assert NodeGrows(st.nodes[r], st'.nodes[r]);
  }

  lemma VisitingParts(st: Rv, st': Rv, r: Ref, todo: set<Ref>)
    requires Visiting(st, st', r, todo)
    ensures Graph(st') && Grows(st, st')
  {
  }

  lemma NotBoth(st: Rv, r: Ref, c: Ref)
    requires Graph(st) && r in st.nodes && st.nodes[r].Scope? && c in st.nodes[r].children
    ensures c !in st.nodes[r].items
  {
    assert NodeLinks(st, r);
  }

  /** A child met half-way through can be updated in turn. */
  lemma ChildReady(st: Rv, st1: Rv, r: Ref, c: Ref, depth: map<Ref, nat>, bound: nat)
    requires Graph(st) && Graph(st1) && Grows(st, st1) && r in st.nodes && st.nodes[r].Scope?
    requires c in st.nodes[r].children || c in st.nodes[r].items
    requires Ranked(st, depth, bound) && forall n :: n in st.nodes && n != r ==> st.nodes[n].ids != map[]
    ensures c in st.nodes && c in st1.nodes && st1.nodes[c].fathers != {} && st1.nodes[c].ids != map[] && Sound(st1, c)
    ensures c in st.nodes[r].children ==> st1.nodes[c].Scope?
    ensures c in st.nodes[r].items ==> st1.nodes[c].Item?
    ensures r in depth && c in depth
    ensures c !in st1.nodes[c].fathers && forall f :: f in st1.nodes[c].fathers ==> f in st1.nodes
    ensures Ranked(st1, depth, bound) && depth[r] < depth[c] <= bound
    ensures forall n :: n in st1.nodes && n != c ==> n == r || st1.nodes[n].ids != map[]
  {
    hide AllSound, Indexed, Siblings;
    assert NodeLinks(st, r);
    RankedGrows(st, st1, depth, bound);
    GraphParts(st1, c);
    forall n | n in st1.nodes && n != r ensures st1.nodes[n].ids != map[] {
      assert NodeGrows(st.nodes[n], st1.nodes[n]);
      assert st.nodes[n].ids.Keys != {};
      var id :| id in st.nodes[n].ids;
      assert id in st1.nodes[n].ids;
    }
    assert NodeGrows(st.nodes[c], st1.nodes[c]);
  }

  lemma VisitedNotEmpty(st: Rv, st1: Rv, r: Ref, todo: set<Ref>, depth: map<Ref, nat>, bound: nat)
    requires Graph(st) && Visiting(st, st1, r, todo) && r in st.nodes && st.nodes[r].Scope? && st.nodes[r].fathers != {}
    requires todo <= st.nodes[r].children + st.nodes[r].items && Ranked(st, depth, bound)
    requires forall n :: n in st.nodes && n != r ==> st.nodes[n].ids != map[]
    ensures r in st1.nodes && st1.nodes[r].ids != map[]
  {
    hide AllSound, Indexed, Siblings;
    GraphParts(st, r);
    assert NodeLinks(st, r);
    assert r !in todo;
    var f :| f in st.nodes[r].fathers;
    assert st.nodes[f].ids.Keys != {};
    var id :| id in st.nodes[f].ids;
    assert NodeGrows(st.nodes[f], st1.nodes[f]) && NodeGrows(st.nodes[r], st1.nodes[r]);
    assert Complete(st1, r) && f in st1.nodes[r].fathers && f in st1.nodes && id in st1.nodes[f].ids;
    assert Extends(st1, r, id);
  }

  lemma ItemPropagated(st: Rv, i: Ref)
    requires Graph(st) && i in st.nodes && st.nodes[i].Item? && st.nodes[i].fathers != {} && i !in st.nodes[i].fathers
    ensures Propagated(st, AddIds(st, i, Missing(st, i)), i)
  {
    hide Graph, Complete, AddIds;
    VisitingStarts(st, i);
    VisitingEnds(st, AddIds(st, i, Missing(st, i)), i);
  }

  lemma AddIdsNode(st: Rv, r: Ref, s: set<Id>)
    requires r in st.nodes
    ensures AddIds(st, r, s).nodes.Keys == st.nodes.Keys
    ensures forall n :: n in st.nodes && n != r ==> AddIds(st, r, s).nodes[n] == st.nodes[n]
    ensures forall id :: id in AddIds(st, r, s).nodes[r].ids <==> id in st.nodes[r].ids || id in s
  {
  }

  lemma Appended(sent: seq<Message>, news: seq<Message>, more: seq<Message>)
    ensures sent + news + more == sent + (news + more) && (sent + news)[..|sent|] == sent && (sent + news)[|sent|..] == news
  {
  }

  lemma NewsIs(sent: seq<Message>, sent': seq<Message>)
    ensures forall more :: sent' == sent + more ==> |sent| <= |sent'| && sent'[..|sent|] == sent && sent'[|sent|..] == more
    ensures sent' == sent ==> sent'[..|sent|] == sent && sent'[|sent|..] == []
  {
  }

  lemma FirstNews(st: Rv, st': Rv, id: Id, prefix: Id, strategy: nat, localProxy: Host, news: seq<Message>, ret: nat)
    requires Inv(st) && |id| == 1
    requires ret == SUCCESS ==> if prefix + id in st.scopeIndex then news == [] else CreatedNews(st', prefix, prefix + id, localProxy, news)
    ensures ret == SUCCESS ==> PublishedNews(st, st', id, prefix, strategy, localProxy, news)
  {
    hide Inv, CreatedNews;
  }

  lemma RepublishedNews(st: Rv, st': Rv, id: Id, prefix: Id, strategy: nat, localProxy: Host, ret: nat, sent: seq<Message>, sent': seq<Message>)
    requires Inv(st) && |id| >= 2
    requires match PlanScope(st, id, prefix, strategy)
             case LinkTo(f, r) =>
               && f in st'.nodes && r in st'.nodes
               && sent' == sent + Notice(true, st'.nodes[r].ids.Keys - {id}, st'.nodes[r].strategy, MembersOf(st'.nodes[f], Subscriber), localProxy)
             case _ => sent' == sent
    ensures |sent| <= |sent'| && sent'[..|sent|] == sent && PublishedNews(st, st', id, prefix, strategy, localProxy, sent'[|sent|..])
    ensures !PlanScope(st, id, prefix, strategy).LinkTo? ==> sent' == sent
  {
    hide Inv, PlanScope, Notice, MembersOf;
    NewsIs(sent, sent');
  }

  /** News of a scope publication never says that a scope is gone. */
  lemma PublishedSays(st: Rv, st': Rv, id: Id, prefix: Id, strategy: nat, localProxy: Host, news: seq<Message>)
    requires Inv(st) && id != [] && PublishedNews(st, st', id, prefix, strategy, localProxy, news)
    ensures forall m :: m in news && m.ScopeNotice? ==> m.published
  {
    hide Inv, PlanScope, MembersOf;
  }

  lemma SubscribedSays(st: Rv, st': Rv, prefix: Id, full: Id, h: Host, localProxy: Host, news: seq<Message>)
    requires Inv(st') && SubscribedNews(st, st', prefix, full, h, localProxy, news)
    ensures forall m :: m in news && m.ScopeNotice? ==> m.published
  {
    hide Inv, Briefed, MembersOf;
    if full in st.scopeIndex {
      BriefingSays(st', st'.scopeIndex[full], h, localProxy, news);
    }
  }

  /** Announcements of an item are no notices. */
  lemma AnnouncedSays(st: Rv, i: Ref, subs: set<Host>, sent: seq<Message>)
    requires i in st.nodes
    ensures forall published :: NoticesSay(sent, sent + Announce(st, i, subs), published)
  {
    hide Announce;
    AnnounceSays(st, i, subs);
  }

  lemma ItemAnnouncedSays(st: Rv, full: Id, sent: seq<Message>, sent': seq<Message>)
    requires ItemAnnounced(st, full, sent, sent') || sent' == sent
    ensures forall published :: NoticesSay(sent, sent', published)
  {
    hide Announce, Audience;
    if sent' != sent {
      AnnouncedSays(st, st.pubIndex[full], Audience(st, st.pubIndex[full]), sent);
    }
  }

  lemma ItemLeftSays(st: Rv, st': Rv, full: Id, sent: seq<Message>, sent': seq<Message>)
    requires LeftAnnounced(st, st', full, sent, sent') || sent' == sent
    ensures forall published :: NoticesSay(sent, sent', published)
  {
    hide Announce, Audience;
    if full in st.pubIndex && st.pubIndex[full] in st'.nodes {
      AnnouncedSays(st', st.pubIndex[full], Audience(st', st.pubIndex[full]), sent);
    }
  }

  lemma UnsubscribedSays(st: Rv, h: Host, full: Id, sent: seq<Message>, sent': seq<Message>)
    requires full in st.pubIndex && st.pubIndex[full] in st.nodes && full in st.nodes[st.pubIndex[full]].ids
    requires var mid := SetHost(st, Subscriber, st.pubIndex[full], full, h, false);
      sent' == sent + Announce(mid, st.pubIndex[full], Audience(mid, st.pubIndex[full]))
    ensures forall published :: NoticesSay(sent, sent', published)
  {
    hide Announce, Audience;
    var mid := SetHost(st, Subscriber, st.pubIndex[full], full, h, false);
    AnnouncedSays(mid, st.pubIndex[full], Audience(mid, st.pubIndex[full]), sent);
  }

  lemma NothingSays(sent: seq<Message>)
    ensures forall published :: NoticesSay(sent, sent, published)
  {
  }

  lemma PruneSays(st: Rv, prefix: Id, full: Id, r: Ref, localProxy: Host)
    requires ScopeInPlace(st, prefix, r)
    ensures forall m :: m in PruneNotice(st, prefix, full, r, localProxy) ==> m.ScopeNotice? && !m.published
  {
    hide Unused, MembersOf;
  }

  /** Notices sent when a host leaves a scope say that scopes are gone. */
  lemma LeftSays(st: Rv, h: Host, prefix: Id, full: Id, localProxy: Host, sent: seq<Message>, sent': seq<Message>)
    requires LeftNotified(st, h, prefix, full, localProxy, sent, sent')
    ensures NoticesSay(sent, sent', false)
  {
    hide AllAnnounced, PruneNotice, SetHost;
    var mid := SetHost(st, Subscriber, st.scopeIndex[full], full, h, false);
    var news: seq<Message> :| AllAnnounced(mid, st.scopeIndex[full], news)
      && sent' == sent + news + PruneNotice(mid, prefix, full, st.scopeIndex[full], localProxy);
    AnnouncementsSay(mid, st.scopeIndex[full], news);
    PruneSays(mid, prefix, full, st.scopeIndex[full], localProxy);
    var more := PruneNotice(mid, prefix, full, st.scopeIndex[full], localProxy);
    assert sent' == sent + (news + more);
    NewsSay(sent, news + more, false);
  }

  lemma UnpublishedSays(mid: Rv, h: Host, prefix: Id, full: Id, r: Ref, code: nat, localProxy: Host, items: set<Ref>,
                        sent: seq<Message>, between: seq<Message>, sent': seq<Message>)
    requires OnlyAbout(sent, between, items) && PruneSent(mid, h, prefix, full, r, code, localProxy, between, sent')
    ensures NoticesSay(sent, sent', false)
  {
    hide PruneNotice, SetHost, ScopeInPlace;
    if code == SUCCESS {
      var st := SetHost(mid, Publisher, r, full, h, false);
      PruneSays(st, prefix, full, r, localProxy);
    }
  }

  /** The code of unpublishing a scope is decided by who published it before. */
  lemma UnpublishScopeCodes(st: Rv, h: Host, name: Fragment, prefix: Id, strategy: nat)
    requires Valid(st)
    ensures var full := prefix + [name];
      if full !in st.scopeIndex then LeaveCode(st, true, Publisher, h, prefix, name, strategy, SCOPE_DOES_NOT_EXIST)
      else
        && st.scopeIndex[full] in st.nodes && full in st.nodes[st.scopeIndex[full]].ids
        && var r := st.scopeIndex[full];
           if st.nodes[r].strategy != strategy then LeaveCode(st, true, Publisher, h, prefix, name, strategy, STRATEGY_MISMATCH)
           else LeaveCode(st, true, Publisher, h, prefix, name, strategy, if h in st.nodes[r].ids[full].pubs then SUCCESS else DOES_NOT_EXIST)
  {
    hide Inv, Mirror, Holds;
    var full := prefix + [name];
    if full in st.scopeIndex {
      ScopePlace(st, prefix, name);
      HoldsHere(st, Publisher, st.scopeIndex[full], full, h);
    }
  }

  lemma DeletionIsTold(st: Rv, prefix: Id, name: Fragment, r: Ref, localProxy: Host, sent: seq<Message>)
    requires Inv(st) && prefix + [name] in st.scopeIndex && r == st.scopeIndex[prefix + [name]] && ScopeInPlace(st, prefix, r)
    ensures var news := PruneNotice(st, prefix, prefix + [name], r, localProxy);
      && (sent + news)[|sent|..] == news
      && if prefix == [] then sent + news == sent else DeletionTold(st, PruneScope(st, prefix, r), prefix, prefix + [name], localProxy, news)
  {
    hide Inv, PruneScope, PruneNotice, Entrant;
    if prefix == [] {
      ScopePlace(st, prefix, name);
      NoRootNotice(st, prefix, prefix + [name], r, localProxy);
    } else {
      PruneNoticeIs(st, prefix, name, localProxy);
    }
  }

  lemma NoRootNotice(st: Rv, prefix: Id, full: Id, r: Ref, localProxy: Host)
    requires ScopeInPlace(st, prefix, r) && prefix !in st.scopeIndex
    ensures PruneNotice(st, prefix, full, r, localProxy) == []
  {
  }

  lemma SubscribedIs(st: Rv, st': Rv, prefix: Id, full: Id, h: Host, localProxy: Host, news: seq<Message>)
    requires full in st'.scopeIndex
    requires if full in st.scopeIndex then Briefed(st', st'.scopeIndex[full], h, localProxy, news)
             else CreatedNews(st', prefix, full, localProxy, news)
    ensures SubscribedNews(st, st', prefix, full, h, localProxy, news)
  {
    hide Briefed, CreatedNews;
  }

  lemma NewScopeIsTold(st: Rv, st': Rv, prefix: Id, name: Fragment, strategy: nat, localProxy: Host, news: seq<Message>)
    requires Inv(st') && NodeMade(st, st', true, prefix, name, strategy)
    requires prefix + [name] !in st.scopeIndex && prefix + [name] !in st.pubIndex
    requires NewScopeNoticed(st', prefix, prefix + [name], localProxy, news)
    ensures NewScopeTold(st', prefix, prefix + [name], strategy, localProxy, news)
  {
    hide Inv, MembersOf, Notice, Entrant, KeepsNodes;
    var r := st'.scopeIndex[prefix + [name]];
    NoticeIs(st', st'.scopeIndex[prefix], true, st'.nodes[r].ids.Keys, st'.nodes[r].strategy, localProxy);
  }

  /** The code of a republication, and what the scope is known by afterwards. */
  lemma ScopeRepublished(st: Rv, st': Rv, h: Host, id: Id, prefix: Id, strategy: nat, ret: nat)
    requires Valid(st) && Inv(st') && |id| >= 2 && prefix != []
    requires match PlanScope(st, id, prefix, strategy)
             case Refuse(code) => ret == code
             case EnterAt(r) =>
               && r in st.nodes && prefix + [Last(id)] in st.nodes[r].ids
               && Outcome(st', ret) == EnterExisting(st, Publisher, r, prefix + [Last(id)], h)
             case LinkTo(f, r) => ret == SUCCESS && LinkedAndEntered(st, st', f, r, prefix + [Last(id)], h)
    ensures ScopeCode(st, Publisher, h, prefix, Last(id), {id}, strategy, ret)
    ensures ret == SUCCESS ==> AlsoKnownAs(st, st', true, id, prefix + [Last(id)])
  {
    hide Inv, Mirror, Holds, PlanScope, EnterExisting, ScopeCode, LinkedAndEntered;
    var full := prefix + [Last(id)];
    PlannedNodes(st, id, prefix, strategy);
    match PlanScope(st, id, prefix, strategy) {
      case Refuse(code) =>
      case EnterAt(r) =>
        ExistingCode(st, Publisher, r, full, h);
        ExistingIndex(st, Publisher, r, full, h);
      case LinkTo(f, r) =>
        InvIndexed(st);
        IndexedScope(st, id);
        EnteredIndex(st, st', f, r, full, h);
    }
    PlanScopeCode(st, h, id, prefix, strategy, ret);
  }

  lemma ItemReadvertised(st: Rv, st': Rv, h: Host, id: Id, prefix: Id, strategy: nat, ret: nat)
    requires Valid(st) && Inv(st') && |id| >= 2 && prefix != []
    requires match PlanItem(st, id, prefix, strategy)
             case Refuse(code) => ret == code
             case EnterAt(r) =>
               && r in st.nodes && prefix + [Last(id)] in st.nodes[r].ids
               && Outcome(st', ret) == EnterExisting(st, Publisher, r, prefix + [Last(id)], h)
             case LinkTo(f, r) => ret == SUCCESS && LinkedAndEntered(st, st', f, r, prefix + [Last(id)], h)
    ensures ItemCode(st, Publisher, h, prefix, Last(id), {id}, strategy, ret) && ret != WRONG_IDS
    ensures ret == SUCCESS ==> AlsoKnownAs(st, st', false, id, prefix + [Last(id)])
  {
    hide Inv, Mirror, Holds, PlanItem, EnterExisting, ItemCode, LinkedAndEntered;
    var full := prefix + [Last(id)];
    PlannedNodes(st, id, prefix, strategy);
    match PlanItem(st, id, prefix, strategy) {
      case Refuse(code) =>
      case EnterAt(r) =>
        ExistingCode(st, Publisher, r, full, h);
        ExistingIndex(st, Publisher, r, full, h);
      case LinkTo(f, r) =>
        InvIndexed(st);
        IndexedItem(st, id);
        EnteredIndex(st, st', f, r, full, h);
    }
    PlanItemCode(st, h, id, prefix, strategy, ret);
    ItemCodes(st, Publisher, h, prefix, Last(id), {id}, strategy, ret);
  }

  lemma ItemCodes(st: Rv, role: Role, h: Host, prefix: Id, name: Fragment, known: set<Id>, strategy: nat, code: nat)
    requires ItemCode(st, role, h, prefix, name, known, strategy, code)
    ensures code != WRONG_IDS
  {
  }

  lemma EnteredIndex(st: Rv, st': Rv, f: Ref, r: Ref, full: Id, h: Host)
    requires Inv(st') && r in st.nodes && LinkedAndEntered(st, st', f, r, full, h)
    ensures if st.nodes[r].Scope? then full in st'.scopeIndex && st'.scopeIndex[full] == r else full in st'.pubIndex && st'.pubIndex[full] == r
  {
    hide Links, AllSound, Siblings, AllComplete, Complete, Graph;
    var mid :| LinkedAndPropagated(st, mid, f, r) && r in mid.nodes && full in mid.nodes[r].ids
      && st' == SetHost(mid, Publisher, r, full, h, true);
    LinkShape(st, f, r, r);
    assert NodeGrows(Link(st, f, r).nodes[r], mid.nodes[r]);
    InvIndexed(st');
    assert Owner(st', full, r);
  }

  lemma EmptyEnumerates()
    ensures Enumerates([], {})
  {
  }

  lemma AnnouncedInOrder(st: Rv, r: Ref, order: seq<Ref>)
    requires r in st.nodes && st.nodes[r].Scope? && Enumerates(order, st.nodes[r].items) && forall i :: i in order ==> i in st.nodes
    ensures AllAnnounced(st, r, Announcements(st, order))
  {
    hide Announcements, Enumerates;
  }

  lemma NoticedInOrder(st: Rv, r: Ref, order: seq<Ref>, h: Host, localProxy: Host)
    requires r in st.nodes && st.nodes[r].Scope? && Enumerates(order, st.nodes[r].children) && forall c :: c in order ==> c in st.nodes
    ensures AllNoticed(st, r, h, localProxy, ScopeNotices(st, order, h, localProxy))
  {
    hide ScopeNotices, Enumerates;
  }

  lemma EmptyAnnouncements(st: Rv)
    ensures Announcements(st, []) == []
  {
  }

  lemma EmptyNotices(st: Rv, h: Host, localProxy: Host)
    ensures ScopeNotices(st, [], h, localProxy) == []
  {
  }

  /** The new node r below f: of the wanted kind, carrying the wanted identifier, with nobody entered. */
  ghost predicate NewAt(st: Rv, f: Ref, r: Ref, scope: bool, strategy: nat, full: Id) {
    && r in st.nodes && st.nodes[r].Scope? == scope && st.nodes[r].strategy == strategy && st.nodes[r].fathers == {f}
    && full in st.nodes[r].ids && (forall id :: id in st.nodes[r].ids ==> st.nodes[r].ids[id] == NoHosts)
    && (scope ==> st.nodes[r].children == {} && st.nodes[r].items == {})
    && f in st.nodes && f != r
  }

  lemma NewChildIsNew(st: Rv, f: Ref, r: Ref, scope: bool, name: Fragment, strategy: nat, prefix: Id)
    requires Inv(st) && f in st.nodes && st.nodes[f].Scope? && r !in st.nodes && prefix in st.nodes[f].ids
    requires prefix + [name] !in st.scopeIndex && prefix + [name] !in st.pubIndex
    ensures NewAt(NewChild(st, f, r, scope, name, strategy), f, r, scope, strategy, prefix + [name])
    ensures NewChild(st, f, r, scope, name, strategy).nodes.Keys == st.nodes.Keys + {r}
  {
    hide Graph, AllComplete, AddIds, Missing;
    NewChildKeepsInv(st, f, r, scope, name, strategy, prefix);
    var st1 := Attach(st, f, r, scope, name, strategy);
    AttachedNodes(st, f, r, scope, name, strategy);
    AddIdsToNew(st1, r, Missing(st1, r));
  }

  lemma AddIdsToNew(st: Rv, r: Ref, s: set<Id>)
    requires r in st.nodes && st.nodes[r].ids == map[]
    ensures AddIds(st, r, s).nodes.Keys == st.nodes.Keys && SameNode(st.nodes[r], AddIds(st, r, s).nodes[r])
    ensures forall id :: id in AddIds(st, r, s).nodes[r].ids ==> AddIds(st, r, s).nodes[r].ids[id] == NoHosts
  {
  }

  lemma AttachRanked(st: Rv, f: Ref, r: Ref, scope: bool, name: Fragment, strategy: nat)
    returns (depth: map<Ref, nat>, bound: nat)
    requires Inv(st) && f in st.nodes && st.nodes[f].Scope? && r !in st.nodes
    ensures Ranked(Attach(st, f, r, scope, name, strategy), depth, bound)
  {
    hide AllSound, Siblings, Indexed, AllComplete;
    var d, b := InvIsRanked(st);
    depth, bound := d[r := b + 1], b + 1;
    forall n, g | n in st.nodes && g in st.nodes[n].fathers ensures g in st.nodes {
      assert NodeLinks(st, n);
      assert FatherLink(st, n, g);
    }
  }

  /** Everything CreateChild relies on. */
  lemma ChildCreated(st: Rv, sent: seq<Message>, except: set<Ref>, f: Ref, r: Ref, scope: bool, name: Fragment, strategy: nat, prefix: Id)
    returns (depth: map<Ref, nat>, bound: nat)
    requires Valid(st) && Fresh(st, sent, except) && f in st.nodes && st.nodes[f].Scope? && r !in st.nodes && prefix in st.nodes[f].ids
    requires prefix + [name] !in st.scopeIndex && prefix + [name] !in st.pubIndex
    ensures Graph(Attach(st, f, r, scope, name, strategy)) && Ranked(Attach(st, f, r, scope, name, strategy), depth, bound)
    ensures var st1 := Attach(st, f, r, scope, name, strategy);
      && r in st1.nodes && st1.nodes[r] == Child(scope, name, strategy, f) && f in st1.nodes && f != r
      && forall n :: n in st1.nodes && n != r ==> st1.nodes[n].ids != map[]
    ensures var st2 := NewChild(st, f, r, scope, name, strategy);
      && Valid(st2) && Fresh(st2, sent, except) && NewAt(st2, f, r, scope, strategy, prefix + [name])
      && st2.nodes.Keys == st.nodes.Keys + {r}
  {
    hide Graph, AllComplete, Mirror, Fresh, Named, SamePairs, NewChild, Ranked, NewAt;
    depth, bound := AttachRanked(st, f, r, scope, name, strategy);
    AttachKeepsGraph(st, f, r, scope, name, strategy, prefix);
    AttachedNodes(st, f, r, scope, name, strategy);
    NewChildKeepsInv(st, f, r, scope, name, strategy, prefix);
    NewChildEntries(st, f, r, scope, name, strategy, prefix);
    SamePairsKeepEntries(st, NewChild(st, f, r, scope, name, strategy));
    NewChildFresh(st, sent, except, f, r, scope, name, strategy);
    NewChildIsNew(st, f, r, scope, name, strategy, prefix);
  }

  lemma AttachedNodes(st: Rv, f: Ref, r: Ref, scope: bool, name: Fragment, strategy: nat)
    requires AllComplete(st) && f in st.nodes && st.nodes[f].Scope? && r !in st.nodes
    ensures var st1 := Attach(st, f, r, scope, name, strategy);
      && r in st1.nodes && st1.nodes[r] == Child(scope, name, strategy, f) && f in st1.nodes
      && st1.nodes.Keys == st.nodes.Keys + {r}
      && forall n :: n in st1.nodes && n != r ==> st1.nodes[n].ids != map[]
  {
    hide Complete;
    forall n | n in st.nodes ensures st.nodes[n].ids != map[] {
      assert Complete(st, n);
    }
  }

  /** r may be linked under f: it has a father already, f carries prefix, and r's name is free below f. */
  ghost predicate CanLink(st: Rv, f: Ref, prefix: Id, r: Ref) {
    && f in st.nodes && st.nodes[f].Scope? && prefix in st.nodes[f].ids
    && r in st.nodes && f != r && st.nodes[r].fathers != {}
    && (forall n :: n in st.nodes && f in st.nodes[n].fathers ==> st.nodes[n].name != st.nodes[r].name)
  }

  lemma LinkedNodes(st: Rv, f: Ref, r: Ref)
    requires AllComplete(st) && f in st.nodes && st.nodes[f].Scope? && r in st.nodes && f != r
    ensures var st1 := Link(st, f, r);
      && r in st1.nodes && st1.nodes[r].name == st.nodes[r].name && st1.nodes[r].Scope? == st.nodes[r].Scope?
      && st1.nodes[r].strategy == st.nodes[r].strategy
      && st1.nodes[r].fathers == st.nodes[r].fathers + {f} && st1.nodes.Keys == st.nodes.Keys
      && forall n :: n in st1.nodes ==> st1.nodes[n].ids != map[]
  {
    hide Complete;
    forall n | n in st.nodes ensures Link(st, f, r).nodes[n].ids != map[] {
      LinkShape(st, f, r, n);
      assert Complete(st, n);
    }
    assert Link(st, f, r).nodes.Keys == st.nodes.Keys;
  }

  lemma LinkIs(st: Rv, st1: Rv, f: Ref, r: Ref)
    requires f in st.nodes && st.nodes[f].Scope? && r in st.nodes && f != r
    requires st1 == st.(nodes := st1.nodes)
    requires st1.nodes == st.nodes[r := WithFathers(st.nodes[r], st.nodes[r].fathers + {f})]
      [f := if st.nodes[r].Scope? then WithChild(st.nodes[f], r) else WithItem(st.nodes[f], r)]
    ensures st1 == Link(st, f, r)
  {
  }

  lemma LinkedNode1(st: Rv, st1: Rv, f: Ref, r: Ref)
    requires Inv(st) && LinkedAndPropagated(st, st1, f, r)
    ensures f in st1.nodes && r in st1.nodes && st1.nodes[r].name == st.nodes[r].name && st1.nodes[r].Scope? == st.nodes[r].Scope?
    ensures st1.nodes[r].strategy == st.nodes[r].strategy && st1.nodes.Keys == st.nodes.Keys
  {
    hide Graph, AllComplete, Complete, Link;
    LinkedNodes(st, f, r);
    assert NodeGrows(Link(st, f, r).nodes[r], st1.nodes[r]);
  }

  /** Deleting an unused node leaves everything in order. */
  lemma NodeDropped(st: Rv, sent: seq<Message>, except: set<Ref>, f: Ref, r: Ref)
    requires Valid(st) && Fresh(st, sent, except)
    requires r in st.nodes && f in st.nodes && st.nodes[r].fathers == {f} && Unused(st, f, r)
    requires st.nodes[r].Scope? ==> st.nodes[r].children == {} && st.nodes[r].items == {}
    ensures f != r && st.nodes[f].Scope?
    ensures Valid(DropNode(st, f, r)) && Fresh(DropNode(st, f, r), sent, except)
    ensures DropNode(st, f, r).nodes.Keys <= st.nodes.Keys
  {
    hide Inv, Mirror, Fresh, Named, Unused, SamePairs;
    DropNodeKeeps(st, f, r);
    SamePairsKeepEntries(st, DropNode(st, f, r));
    PruneFresh(st, sent, except, f, r);
    PruneIs(st, f, r);
  }

  /** Deleting an unused branch leaves everything in order, but an item's last message may be out of date. */
  lemma BranchDropped(st: Rv, sent: seq<Message>, except: set<Ref>, f: Ref, r: Ref)
    requires Valid(st) && Fresh(st, sent, except)
    requires r in st.nodes && f in st.nodes && f in st.nodes[r].fathers && st.nodes[r].fathers != {f} && Unused(st, f, r)
    requires st.nodes[r].Scope? ==> st.nodes[r].children == {} && st.nodes[r].items == {}
    ensures f != r && st.nodes[f].Scope? && Sound(st, r) && st.nodes[r].ids != map[]
    ensures Valid(DropBranch(st, f, r))
    ensures Fresh(DropBranch(st, f, r), sent, except + if st.nodes[r].Scope? then {} else {r})
    ensures DropBranch(st, f, r).nodes.Keys == st.nodes.Keys
  {
    hide Inv, Mirror, Fresh, Named, Unused, SamePairs;
    DropBranchKeeps(st, f, r);
    SamePairsKeepEntries(st, DropBranch(st, f, r));
    NotSingleton(st.nodes[r].fathers, f);
    PruneFresh(st, sent, except, f, r);
    PruneIs(st, f, r);
    InvIsSound(st, r);
    assert except + {} == except;
  }

  lemma PruneIs(st: Rv, f: Ref, r: Ref)
    requires f in st.nodes && r in st.nodes && st.nodes[f].Scope? && Unused(st, f, r)
    ensures Prune(st, f, r) == if |st.nodes[r].fathers| == 1 then DropNode(st, f, r) else DropBranch(st, f, r)
  {
  }

  lemma DropNodeIs(st: Rv, f: Ref, r: Ref)
    requires f in st.nodes && r in st.nodes && st.nodes[f].Scope?
    ensures DropNode(st, f, r) == Unindex(st, r, st.nodes[r].ids.Keys)
      .(nodes := st.nodes[f := WithoutChild(st.nodes[f], r, st.nodes[r].Scope?)] - {r})
  {
  }

  lemma DropBranchIs(st: Rv, f: Ref, r: Ref)
    requires f in st.nodes && r in st.nodes && st.nodes[f].Scope?
    ensures DropBranch(st, f, r) == Unindex(st, r, IdsVia(st, f, r))
      .(nodes := st.nodes[r := Without(st.nodes[r], f, IdsVia(st, f, r))][f := WithoutChild(st.nodes[f], r, st.nodes[r].Scope?)])
  {
  }

  lemma NotSingleton(s: set<Ref>, x: Ref)
    requires x in s && s != {x}
    ensures |s| != 1
  {
    if |s| == 1 {
      SingletonSet(s, x);
    }
  }

  lemma InvIsSound(st: Rv, r: Ref)
    requires Inv(st) && r in st.nodes
    ensures Sound(st, r) && st.nodes[r].ids != map[]
  {
    assert Sound(st, r) && Complete(st, r);
  }

  lemma NewRootNode(st: Rv, r: Ref, name: Fragment, strategy: nat)
    ensures var st1 := NewRoot(st, r, name, strategy);
      && r in st1.nodes && st1.nodes[r].Scope? && st1.nodes[r].items == {} && [name] in st1.nodes[r].ids
      && st1.nodes[r].ids[[name]] == NoHosts
  {
  }

  lemma NoItemsTouched(st: Rv, role: Role, r: Ref)
    requires r in st.nodes && st.nodes[r].Scope? && st.nodes[r].items == {}
    ensures TouchedBy(st, role, r) == {}
  {
  }

  lemma TouchedAlike(st: Rv, st1: Rv, role: Role, r: Ref)
    requires r in st.nodes && r in st1.nodes && SameNode(st.nodes[r], st1.nodes[r])
    ensures TouchedBy(st, role, r) == TouchedBy(st1, role, r)
  {
  }

  lemma NewAtParts(st: Rv, f: Ref, r: Ref, scope: bool, strategy: nat, full: Id)
    requires NewAt(st, f, r, scope, strategy, full)
    ensures r in st.nodes && st.nodes[r].Scope? == scope && full in st.nodes[r].ids && st.nodes[r].ids[full] == NoHosts
    ensures scope ==> st.nodes[r].items == {}
  {
  }

  /** The identifiers of a new child and of its father are where they belong. */
  ghost predicate NewIndexed(st: Rv, st1: Rv, f: Ref, r: Ref, scope: bool, prefix: Id, name: Fragment) {
    && r in st1.nodes && st1.nodes[r].Scope? == scope && f in st1.nodes
    && (if scope then prefix + [name] in st1.scopeIndex && st1.scopeIndex[prefix + [name]] == r
        else prefix + [name] in st1.pubIndex && st1.pubIndex[prefix + [name]] == r)
    && (scope && prefix in st.scopeIndex ==> prefix in st1.scopeIndex && st1.scopeIndex[prefix] == st.scopeIndex[prefix])
  }

  lemma SetHostShape(st: Rv, role: Role, r: Ref, id: Id, h: Host, on: bool)
    requires r in st.nodes && id in st.nodes[r].ids
    ensures var st1 := SetHost(st, role, r, id, h, on);
      && st1.nodes.Keys == st.nodes.Keys && st1.scopeIndex == st.scopeIndex && st1.pubIndex == st.pubIndex
      && r in st1.nodes && SameNode(st.nodes[r], st1.nodes[r]) && st1.nodes[r].ids.Keys == st.nodes[r].ids.Keys
      && forall n :: n in st.nodes && n != r ==> st1.nodes[n] == st.nodes[n]
  {
    SetHostSameKeys(st, role, r, id, h, on);
    var st1 := SetHost(st, role, r, id, h, on);
    assert SameNode(st.nodes[r], st1.nodes[r]);
  }

  lemma ExistingIndex(st: Rv, role: Role, r: Ref, id: Id, h: Host)
    requires r in st.nodes && id in st.nodes[r].ids
    ensures EnterExisting(st, role, r, id, h).st.scopeIndex == st.scopeIndex && EnterExisting(st, role, r, id, h).st.pubIndex == st.pubIndex
  {
  }

  lemma BriefedInTwo(st: Rv, r: Ref, h: Host, localProxy: Host, news: seq<Message>, k: nat)
    requires k <= |news| && AllNoticed(st, r, h, localProxy, news[..k]) && AllAnnounced(st, r, news[k..])
    ensures Briefed(st, r, h, localProxy, news)
  {
    hide AllNoticed, AllAnnounced;
  }

  lemma NewIndex(st: Rv, f: Ref, r: Ref, scope: bool, name: Fragment, strategy: nat, prefix: Id)
    requires Inv(st) && f in st.nodes && st.nodes[f].Scope? && r !in st.nodes && prefix in st.nodes[f].ids
    requires prefix + [name] !in st.scopeIndex && prefix + [name] !in st.pubIndex
    ensures NewIndexed(st, NewChild(st, f, r, scope, name, strategy), f, r, scope, prefix, name)
  {
    hide Links, AllSound, Siblings, AllComplete, NewChild;
    NewChildKeepsInv(st, f, r, scope, name, strategy, prefix);
    NewChildIsNew(st, f, r, scope, name, strategy, prefix);
    var st1 := NewChild(st, f, r, scope, name, strategy);
    assert Owner(st1, prefix + [name], r);
    if scope && prefix in st.scopeIndex {
      var g := st.scopeIndex[prefix];
      NewChildOthers(st, f, r, scope, name, strategy, g);
      assert Owner(st1, prefix, g);
    }
  }

  lemma NewChildOthers(st: Rv, f: Ref, r: Ref, scope: bool, name: Fragment, strategy: nat, g: Ref)
    requires f in st.nodes && st.nodes[f].Scope? && r !in st.nodes && g in st.nodes
    ensures g in NewChild(st, f, r, scope, name, strategy).nodes
    ensures NewChild(st, f, r, scope, name, strategy).nodes[g].ids == st.nodes[g].ids
    ensures NewChild(st, f, r, scope, name, strategy).nodes[g].Scope? == st.nodes[g].Scope?
  {
    hide Missing;
  }

  lemma NewSubscriberOnly(st: Rv, f: Ref, r: Ref, strategy: nat, full: Id, h: Host)
    requires NewAt(st, f, r, false, strategy, full)
    ensures MembersOf(SetHost(st, Subscriber, r, full, h, true).nodes[r], Publisher) == {}
  {
    OtherRoleSame(st.nodes[r], full, Subscriber, Publisher, h, true);
  }

  /** The subscribers of the father are told of the new scope under all its identifiers. */
  ghost predicate NewScopeNoticed(st: Rv, prefix: Id, full: Id, localProxy: Host, news: seq<Message>) {
    && prefix in st.scopeIndex && st.scopeIndex[prefix] in st.nodes
    && full in st.scopeIndex && st.scopeIndex[full] in st.nodes
    && var r := st.scopeIndex[full];
       news == Notice(true, st.nodes[r].ids.Keys, st.nodes[r].strategy, MembersOf(st.nodes[st.scopeIndex[prefix]], Subscriber), localProxy)
  }

  /** News of a scope published or subscribed to for the first time; a root has no father whose subscribers could care. */
  ghost predicate CreatedNews(st: Rv, prefix: Id, full: Id, localProxy: Host, news: seq<Message>) {
    if prefix == [] then news == [] else NewScopeNoticed(st, prefix, full, localProxy, news)
  }

  /** News of a scope subscription: an existing scope's contents, or the new scope. */
  ghost predicate SubscribedNews(st: Rv, st': Rv, prefix: Id, full: Id, h: Host, localProxy: Host, news: seq<Message>) {
    if full in st.scopeIndex then full in st'.scopeIndex && Briefed(st', st'.scopeIndex[full], h, localProxy, news)
    else CreatedNews(st', prefix, full, localProxy, news)
  }

  /** News of a scope publication: the new scope, or the new place of an old one under its identifiers but the old one named. */
  ghost predicate PublishedNews(st: Rv, st': Rv, id: Id, prefix: Id, strategy: nat, localProxy: Host, news: seq<Message>)
    requires Inv(st)
  {
    if |id| == 1 then (if prefix + id in st.scopeIndex then news == [] else CreatedNews(st', prefix, prefix + id, localProxy, news))
    else
      && |id| >= 2
      && match PlanScope(st, id, prefix, strategy)
         case LinkTo(f, r) =>
           && f in st'.nodes && r in st'.nodes
           && news == Notice(true, st'.nodes[r].ids.Keys - {id}, st'.nodes[r].strategy, MembersOf(st'.nodes[f], Subscriber), localProxy)
         case _ => news == []
  }

  /** The item is announced with what now holds. */
  ghost predicate ItemAnnounced(st: Rv, full: Id, sent: seq<Message>, sent': seq<Message>) {
    && full in st.pubIndex && st.pubIndex[full] in st.nodes
    && sent' == sent + Announce(st, st.pubIndex[full], Audience(st, st.pubIndex[full]))
  }

  /** Republishing does not put the scope below itself; the node does not check this. */
  ghost predicate NoCycle(st: Rv, id: Id, prefix: Id, strategy: nat)
    requires id != []
  {
    Inv(st) && match PlanScope(st, id, prefix, strategy)
               case LinkTo(f, r) => f in st.nodes && r in st.nodes && NotAbove(st, r, f)
               case _ => true
  }

  /** The items that gain an identifier when a scope is republished: if a link is made, those below the scope. */
  ghost function Relabelled(st: Rv, id: Id, prefix: Id, strategy: nat): set<Ref>
    requires Inv(st) && id != []
  {
    match PlanScope(st, id, prefix, strategy)
    case LinkTo(f, r) => if r in st.nodes then ItemsBelow(st, r) else {}
    case _ => {}
  }

  /** r has become a child of f, all identifiers are handed down, and h publishes the new one. */
  ghost predicate LinkedAndEntered(st: Rv, st': Rv, f: Ref, r: Ref, full: Id, h: Host) {
    exists mid {:trigger LinkedAndPropagated(st, mid, f, r)} ::
      && LinkedAndPropagated(st, mid, f, r)
      && r in mid.nodes && full in mid.nodes[r].ids && st' == SetHost(mid, Publisher, r, full, h, true)
  }

  lemma Refused(st: Rv, h: Host, full: Id, scope: bool)
    requires Valid(st)
    ensures forall code :: code != SUCCESS && code != EXISTS ==> EnterEffect(st, Outcome(st, code), Publisher, h, full, scope)
  {
    hide Valid, EnterEffect;
    forall code | code != SUCCESS && code != EXISTS ensures EnterEffect(st, Outcome(st, code), Publisher, h, full, scope) {
      Unchanged(st, code, Publisher, h, full, scope);
    }
  }

  lemma ExistingIs(st: Rv, role: Role, r: Ref, full: Id, h: Host)
    requires r in st.nodes && full in st.nodes[r].ids
    ensures EnterExisting(st, role, r, full, h) ==
      if h in Members(st.nodes[r].ids[full], role) then Outcome(st, EXISTS) else Outcome(SetHost(st, role, r, full, h, true), SUCCESS)
  {
  }

  lemma MayLink(st: Rv, f: Ref, prefix: Id, r: Ref)
    requires Inv(st) && f in st.nodes && st.nodes[f].Scope? && r in st.nodes && prefix in st.nodes[f].ids
    requires st.nodes[r].fathers != {} && f !in st.nodes[r].fathers
    requires forall n :: n in st.nodes && f in st.nodes[n].fathers ==> st.nodes[n].name != st.nodes[r].name
    requires st.nodes[r].Scope? ==> NotAbove(st, r, f)
    ensures CanLink(st, f, prefix, r)
  {
  }

  /** The identifier a link adds had nobody entered. */
  lemma EmptyPlace(st: Rv, st1: Rv, f: Ref, r: Ref, prefix: Id)
    requires Valid(st) && Inv(st1) && LinkedAndPropagated(st, st1, f, r) && r in st1.nodes
    requires prefix + [st.nodes[r].name] !in st.scopeIndex && prefix + [st.nodes[r].name] !in st.pubIndex
    requires prefix + [st.nodes[r].name] in st1.nodes[r].ids
    ensures st1.nodes[r].ids[prefix + [st.nodes[r].name]] == NoHosts
  {
    hide Graph, AllComplete, Complete;
    var full := prefix + [st.nodes[r].name];
    if full in st.nodes[r].ids {
      InvIndexed(st);
      PairOfNode(st, r, full);
    }
    LinkShape(st, f, r, r);
    assert NodeGrows(Link(st, f, r).nodes[r], st1.nodes[r]);
  }

  lemma PublisherTouchesNoItem(st: Rv, r: Ref)
    requires r in st.nodes && st.nodes[r].Scope?
    ensures TouchedBy(st, Publisher, r) == {}
  {
  }

  lemma ItemIndexed(st: Rv, r: Ref, id: Id)
    requires Inv(st) && r in st.nodes && st.nodes[r].Item? && id in st.nodes[r].ids
    ensures id in st.pubIndex && st.pubIndex[id] == r
  {
    assert Owner(st, id, r);
  }

  lemma EffectCode(st: Rv, next: Ref, role: Role, h: Host, name: Fragment, prefix: Id, strategy: nat)
    requires Inv(st) && next !in st.nodes
    ensures EnterRoot(st, next, role, h, name, strategy).code != WRONG_IDS
    ensures EnterScope(st, next, role, h, name, prefix, strategy).code != WRONG_IDS
    ensures EnterItem(st, next, role, h, name, prefix, strategy).code != WRONG_IDS
  {
    hide Inv, NewRoot, NewChild, SetHost;
  }

  lemma EffectUnchanged(st: Rv, o: Outcome, role: Role, h: Host, full: Id, scope: bool)
    requires EnterEffect(st, o, role, h, full, scope)
    ensures o.code != SUCCESS ==> o.st == st
  {
  }

  /** What unpublishing an item sends: an announcement, unless the item has been deleted. */
  ghost predicate LeftAnnounced(st: Rv, st': Rv, full: Id, sent: seq<Message>, sent': seq<Message>) {
    && full in st.pubIndex
    && var r := st.pubIndex[full];
       sent' == sent + if r in st'.nodes then Announce(st', r, Audience(st', r)) else []
  }

  /** What unsubscribing from a scope sends: first its items are announced, then perhaps its deletion noticed. */
  ghost predicate LeftNotified(st: Rv, h: Host, prefix: Id, full: Id, localProxy: Host, sent: seq<Message>, sent': seq<Message>) {
    && full in st.scopeIndex && st.scopeIndex[full] in st.nodes && full in st.nodes[st.scopeIndex[full]].ids
    && var mid := SetHost(st, Subscriber, st.scopeIndex[full], full, h, false);
       && ScopeInPlace(mid, prefix, st.scopeIndex[full])
       && exists news {:trigger AllAnnounced(mid, st.scopeIndex[full], news)} :: AllAnnounced(mid, st.scopeIndex[full], news)
            && sent' == sent + news + PruneNotice(mid, prefix, full, st.scopeIndex[full], localProxy)
  }

  lemma LeftIntro(st: Rv, mid: Rv, h: Host, prefix: Id, full: Id, localProxy: Host, sent: seq<Message>, announced: seq<Message>,
                  sent': seq<Message>)
    requires full in st.scopeIndex && st.scopeIndex[full] in st.nodes && full in st.nodes[st.scopeIndex[full]].ids
    requires mid == SetHost(st, Subscriber, st.scopeIndex[full], full, h, false) && ScopeInPlace(mid, prefix, st.scopeIndex[full])
    requires |sent| <= |announced| && announced[..|sent|] == sent && AllAnnounced(mid, st.scopeIndex[full], announced[|sent|..])
    requires sent' == announced + PruneNotice(mid, prefix, full, st.scopeIndex[full], localProxy)
    ensures LeftNotified(st, h, prefix, full, localProxy, sent, sent')
  {
    hide AllAnnounced, PruneNotice, SetHost;
    assert announced == sent + announced[|sent|..];
  }

  ghost predicate ScopeInPlace(st: Rv, prefix: Id, r: Ref) {
    && r in st.nodes && st.nodes[r].Scope?
    && (prefix in st.scopeIndex ==> st.scopeIndex[prefix] in st.nodes && st.nodes[st.scopeIndex[prefix]].Scope?)
  }

  lemma ItemTouched(st: Rv, role: Role, r: Ref)
    requires r in st.nodes && st.nodes[r].Item?
    ensures TouchedBy(st, role, r) == {r}
  {
  }

  lemma ScopeTouched(st: Rv, role: Role, r: Ref)
    requires r in st.nodes && st.nodes[r].Scope?
    ensures TouchedBy(st, role, r) <= st.nodes[r].items
  {
  }

  lemma NotFatherless(st: Rv, f: Ref, r: Ref)
    requires r in st.nodes && f in st.nodes[r].fathers && |st.nodes[r].fathers| != 1
    ensures st.nodes[r].fathers != {f}
  {
  }

  lemma DropNodeGone(st: Rv, f: Ref, r: Ref)
    requires r in st.nodes && f in st.nodes && st.nodes[f].Scope?
    ensures r !in DropNode(st, f, r).nodes
  {
  }

  lemma DropBranchStays(st: Rv, f: Ref, r: Ref)
    requires r in st.nodes && st.nodes[r].Item? && f in st.nodes && f != r && st.nodes[f].Scope? && f in st.nodes[r].fathers
    ensures r in DropBranch(st, f, r).nodes && DropBranch(st, f, r).nodes[r].Item? && DropBranch(st, f, r) != st
  {
    assert f !in DropBranch(st, f, r).nodes[r].fathers;
  }

  /** First the items below r were unpublished, then the scope itself; nothing else has changed. */
  ghost predicate ScopeUnpublished(st: Rv, o: Outcome, h: Host, name: Fragment, prefix: Id, strategy: nat, r: Ref, localProxy: Host,
                                   sent: seq<Message>, sent': seq<Message>) {
    && r in st.nodes && st.nodes[r].Scope?
    && Unpublished(st, o.st, h, IdsBelow(st, r, st.nodes[r].items, r, {}) + if o.code == SUCCESS then {prefix + [name]} else {})
    && exists mid {:trigger ItemsUnpublished(st, mid, h, r)} ::
         Inv(mid) && ItemsUnpublished(st, mid, h, r) && o == LeaveScope(mid, Publisher, h, name, prefix, strategy)
           && exists between {:trigger OnlyAbout(sent, between, st.nodes[r].items)} ::
                OnlyAbout(sent, between, st.nodes[r].items) && PruneSent(mid, h, prefix, prefix + [name], r, o.code, localProxy, between, sent')
  }

  /** After the scope's publisher left it too: the notice of its deletion, if it is deleted. */
  ghost predicate PruneSent(mid: Rv, h: Host, prefix: Id, full: Id, r: Ref, code: nat, localProxy: Host, sent: seq<Message>, sent': seq<Message>) {
    if code != SUCCESS then sent' == sent
    else
      && r in mid.nodes && full in mid.nodes[r].ids
      && var st := SetHost(mid, Publisher, r, full, h, false);
         ScopeInPlace(st, prefix, r) && sent' == sent + PruneNotice(st, prefix, full, r, localProxy)
  }

  /** All that has been sent in between is about the given items. */
  ghost predicate OnlyAbout(sent: seq<Message>, sent': seq<Message>, items: set<Ref>) {
    && |sent| <= |sent'| && sent'[..|sent|] == sent
    && forall k :: |sent| <= k < |sent'| ==> !sent'[k].ScopeNotice? && sent'[k].item in items
  }

  lemma NothingSent(sent: seq<Message>, items: set<Ref>)
    ensures OnlyAbout(sent, sent, items)
  {
  }

  lemma OnlyAboutExtends(sent: seq<Message>, sent': seq<Message>, items: set<Ref>)
    requires OnlyAbout(sent, sent', items)
    ensures |sent| <= |sent'| && sent'[..|sent|] == sent
    ensures forall more: seq<Message> :: |sent| <= |sent' + more| && (sent' + more)[..|sent|] == sent
  {
  }

  lemma OnlyAboutMore(sent: seq<Message>, sent1: seq<Message>, sent2: seq<Message>, a: set<Ref>, b: set<Ref>)
    requires OnlyAbout(sent, sent1, a) && OnlyAbout(sent1, sent2, b)
    ensures OnlyAbout(sent, sent2, a + b) && a + a == a
  {
    assert sent2[..|sent|] == sent2[..|sent1|][..|sent|];
    forall k | |sent| <= k < |sent2| ensures !sent2[k].ScopeNotice? && sent2[k].item in a + b {
      if k < |sent1| {
        assert sent2[k] == sent1[k];
      }
    }
  }

  lemma LeftAboutItem(st: Rv, st': Rv, i: Ref, full: Id, sent: seq<Message>, sent': seq<Message>)
    requires LeftAnnounced(st, st', full, sent, sent') && (full in st.pubIndex ==> st.pubIndex[full] == i)
    ensures OnlyAbout(sent, sent', {i})
  {
    hide Audience, MembersOf;
  }

  lemma ScopeUnpublishedIntro(st: Rv, mid: Rv, o: Outcome, h: Host, name: Fragment, prefix: Id, strategy: nat, r: Ref, localProxy: Host,
                              sent: seq<Message>, between: seq<Message>, sent': seq<Message>)
    requires r in st.nodes && st.nodes[r].Scope? && OnlyAbout(sent, between, st.nodes[r].items)
    requires PruneSent(mid, h, prefix, prefix + [name], r, o.code, localProxy, between, sent')
    requires Valid(mid) && ItemsUnpublished(st, mid, h, r) && o == LeaveScope(mid, Publisher, h, name, prefix, strategy)
    ensures ScopeUnpublished(st, o, h, name, prefix, strategy, r, localProxy, sent, sent')
  {
    hide Inv, Mirror, LeaveScope, ItemFrame, IdsBelow, Holds, OnlyAbout, PruneSent;
    LeaveScopeEffect(mid, Publisher, h, name, prefix, strategy);
  }

  lemma LeaveScopeIs(st: Rv, h: Host, name: Fragment, prefix: Id, strategy: nat, r: Ref)
    requires Inv(st) && prefix + [name] in st.scopeIndex && r == st.scopeIndex[prefix + [name]]
    requires r in st.nodes && st.nodes[r].strategy == strategy && prefix + [name] in st.nodes[r].ids
    ensures h !in st.nodes[r].ids[prefix + [name]].pubs ==>
      LeaveScope(st, Publisher, h, name, prefix, strategy) == Outcome(st, DOES_NOT_EXIST)
    ensures h in st.nodes[r].ids[prefix + [name]].pubs && ScopeInPlace(SetHost(st, Publisher, r, prefix + [name], h, false), prefix, r) ==>
      LeaveScope(st, Publisher, h, name, prefix, strategy)
        == Outcome(PruneScope(SetHost(st, Publisher, r, prefix + [name], h, false), prefix, r), SUCCESS)
  {
    hide Inv, PruneScope, SetHost;
    ScopePlace(st, prefix, name);
  }

  lemma FrameKeepsScope(st: Rv, st': Rv, h: Host, r: Ref)
    requires Inv(st) && ItemsUnpublished(st, st', h, r)
    ensures st'.scopeIndex == st.scopeIndex && r in st'.nodes && st'.nodes[r].Scope?
    ensures st'.nodes[r].ids == st.nodes[r].ids && st'.nodes[r].strategy == st.nodes[r].strategy
  {
    FrameScope(st, st', st.nodes[r].items, r);
  }

  lemma FrameScope(st: Rv, st': Rv, s: set<Ref>, r: Ref)
    requires Inv(st) && ItemFrame(st, st', s) && r in st.nodes && st.nodes[r].Scope? && s <= st.nodes[r].items
    ensures st'.scopeIndex == st.scopeIndex && r in st'.nodes && st'.nodes[r].Scope?
    ensures st'.nodes[r].ids == st.nodes[r].ids && st'.nodes[r].strategy == st.nodes[r].strategy
  {
    hide AllSound, Indexed, Siblings, AllComplete;
    assert NodeLinks(st, r);
    assert ItemFrameNode(st, st', s, r);
  }

  lemma FrameItem(st: Rv, st': Rv, s: set<Ref>, r: Ref, i: Ref)
    requires Inv(st) && ItemFrame(st, st', s) && r in st.nodes && st.nodes[r].Scope? && s <= st.nodes[r].items
    requires i in st.nodes[r].items && i !in s
    ensures i in st'.nodes && i in st.nodes && st'.nodes[i] == st.nodes[i]
    ensures st'.scopeIndex == st.scopeIndex && r in st'.nodes && st'.nodes[r].Scope?
    ensures st'.nodes[r].ids == st.nodes[r].ids && st'.nodes[r].strategy == st.nodes[r].strategy
  {
    hide AllSound, Indexed, Siblings, AllComplete;
    assert NodeLinks(st, r);
    assert ItemFrameNode(st, st', s, r) && ItemFrameNode(st, st', s, i);
  }

  lemma LeaveFailed(st: Rv, o: Outcome, role: Role, h: Host, full: Id)
    requires LeaveEffect(st, o, role, h, full) && o.code != SUCCESS
    ensures o.st == st
  {
  }

  lemma BelowNone(st: Rv, r: Ref, done: set<Ref>, i: Ref, j: Ref)
    requires r in st.nodes && st.nodes[r].Scope?
    ensures IdsBelow(st, r, done, i, {}) == IdsBelow(st, r, done, j, {})
  {
  }

  lemma BelowAll(st: Rv, r: Ref, done: set<Ref>, i: Ref, part: set<Id>)
    requires r in st.nodes && st.nodes[r].Scope? && part == st.nodes[r].ids.Keys
    ensures IdsBelow(st, r, done, i, part) == IdsBelow(st, r, done + {i}, r, {})
  {
  }

  /** Whose last message a request may leave out of date: the item an unsubscription makes lose a branch. */
  ghost function MadeStale(st: Rv, st': Rv, kind: Kind, h: Host, id: Id, prefix: Id): set<Ref> {
    if kind.UnsubscribeInfo? && |id| == 1 then Outdated(Unsubscribed(st, h, prefix + id), st', prefix, prefix + id) else {}
  }

  /** Whose last message a request may leave with other identifiers: that item, or all items below a republished scope. */
  ghost function MadeMisnamed(st: Rv, st': Rv, kind: Kind, id: Id, prefix: Id, strategy: nat): set<Ref>
    requires Inv(st)
  {
    if kind.UnsubscribeInfo? && |id| == 1 then BranchLost(st, st', prefix + id)
    else if kind.PublishScope? && |id| >= 2 && prefix != [] then Relabelled(st, id, prefix, strategy)
    else {}
  }

  datatype Kind =
    | PublishScope | PublishInfo | UnpublishScope | UnpublishInfo
    | SubscribeScope | SubscribeInfo | UnsubscribeScope | UnsubscribeInfo | Unknown

  /** The entries of all hosts but h are as before. */
  ghost predicate OnlyHost(st: Rv, st': Rv, h: Host) {
    forall h', role, id :: h' != h ==> (Holds(st', role, h', id) <==> Holds(st, role, h', id))
  }

  /** A host that unpublishes a scope no longer publishes its items either, unless the request was refused at once. */
  ghost predicate ScopeLeft(st: Rv, o: Outcome, h: Host, full: Id) {
    if o.code == SUCCESS || o.code == DOES_NOT_EXIST then
      && full in st.scopeIndex && st.scopeIndex[full] in st.nodes
      && forall h', role', id' :: Holds(o.st, role', h', id') <==>
           && Holds(st, role', h', id')
           && !(h' == h && role' == Publisher &&
                ((id' in st.pubIndex && id' != [] && Front(id') in st.nodes[st.scopeIndex[full]].ids) || (o.code == SUCCESS && id' == full)))
    else o.st == st
  }

  lemma UnpublishedLeft(st: Rv, o: Outcome, h: Host, name: Fragment, prefix: Id, strategy: nat, localProxy: Host,
                        sent: seq<Message>, sent': seq<Message>)
    requires Inv(st)
    requires if prefix + [name] !in st.scopeIndex then o.code == SCOPE_DOES_NOT_EXIST && o.st == st
             else
               var r := st.scopeIndex[prefix + [name]];
               && r in st.nodes
               && if st.nodes[r].strategy != strategy then o.code == STRATEGY_MISMATCH && o.st == st
                  else ScopeUnpublished(st, o, h, name, prefix, strategy, r, localProxy, sent, sent')
    requires LeaveCode(st, true, Publisher, h, prefix, name, strategy, o.code)
    ensures ScopeLeft(st, o, h, prefix + [name])
  {
    hide Inv, Holds, ItemsUnpublished, LeaveScope, OnlyAbout, PruneSent;
    if o.code == SUCCESS || o.code == DOES_NOT_EXIST {
      BelowIs(st, st.scopeIndex[prefix + [name]]);
    }
  }

  lemma EnterKeepsOthers(st: Rv, o: Outcome, role: Role, h: Host, full: Id, scope: bool)
    requires EnterEffect(st, o, role, h, full, scope)
    ensures OnlyHost(st, o.st, h)
  {
    hide Holds;
  }

  lemma LeaveKeepsOthers(st: Rv, o: Outcome, role: Role, h: Host, full: Id)
    requires LeaveEffect(st, o, role, h, full)
    ensures OnlyHost(st, o.st, h)
  {
    hide Holds;
  }

  lemma UnpublishKeepsOthers(st: Rv, st': Rv)
    ensures forall o: Outcome, h, name, prefix, strategy, r, localProxy, sent, sent'
      {:trigger ScopeUnpublished(st, o, h, name, prefix, strategy, r, localProxy, sent, sent')} ::
      o.st == st' && ScopeUnpublished(st, o, h, name, prefix, strategy, r, localProxy, sent, sent') ==> OnlyHost(st, st', h)
    ensures st == st' ==> forall h :: OnlyHost(st, st', h)
  {
    hide Holds;
  }
}
