/**
 The local proxy of a node: it stands in for all applications on the machine towards the rendezvous
 node, relays the start and stop notifications of the rendezvous node to one publisher each, and
 cleans up after an application that disconnects.
 */
module LocalProxyModel {
  import opened RvGraph
  import opened ProxyState

  /** A notification to one application: start (or stop) publishing the identifier. */
  datatype Notification = Notification(start: bool, app: App, id: Id)

  /** The identifier a request is about: the prefix extended by the last fragment. */
  function FullId(id: Id, prefix: Id): (full: Id)
    requires id != []
    ensures full != [] && Last(full) == Last(id) && Front(full) == prefix
  {
    prefix + [Last(id)]
  }

  /** An identifier without its last fragment. */
  function FatherId(id: Id): Id {
    if id == [] then [] else Front(id)
  }

  class LocalProxy {
    var pubIndex: map<Id, Publication>
    var subIndex: map<Id, Subscription>
    var hosts: map<App, Entry>
    /** Everything forwarded to the rendezvous node, oldest first. */
    var forwarded: seq<Forward>
    /** Everything told to the applications, oldest first. */
    var told: seq<Notification>

    ghost function State(): Proxy
      reads this
    {
      Proxy(pubIndex, subIndex, hosts)
    }

    ghost predicate Good()
      reads this
    {
      ProxyState.Inv(State()) && Told(State(), forwarded)
    }

    constructor ()
      ensures Good() && State() == Proxy(map[], map[], map[]) && forwarded == [] && told == []
    {
      pubIndex, subIndex, hosts, forwarded, told := map[], map[], map[], [], [];
    }

    method GetLocalHost(p: App)
      requires Good()
      modifies this`hosts
      ensures Good() && p in hosts
      ensures hosts == if p in old(hosts) then old(hosts) else old(hosts)[p := Entry({}, {})]
    {
      hide Told;
      if p !in hosts {
        ghost var st := State();
        hosts := hosts[p := Entry({}, {})];
        NewHostKeeps(st, p, forwarded);
      }
    }

    // ---------- requests ----------

    method StoreActivePublication(p: App, id: Id, strategy: nat, scope: bool) returns (forward: bool)
      requires p in hosts
      modifies this`pubIndex, this`hosts
      ensures Reply(State(), forward) == StorePublication(old(State()), p, id, strategy, scope)
    {
      forward := false;
      if strategy == NODE_LOCAL || strategy == DOMAIN_LOCAL {
        if id !in pubIndex {
          pubIndex := pubIndex[id := Publication(strategy, scope, map[][p := false], [], {})];
          hosts := hosts[p := hosts[p].(pubs := hosts[p].pubs + {id})];
          forward := true;
        } else {
          var ap := pubIndex[id];
          if ap.strategy == strategy {
            if p !in ap.publishers {
              pubIndex := pubIndex[id := ap.(publishers := ap.publishers[p := false])];
            } else {
              assert pubIndex == pubIndex[id := ap.(publishers := ap.publishers)];
            }
            hosts := hosts[p := hosts[p].(pubs := hosts[p].pubs + {id})];
          }
        }
      }
    }

    method RemoveActivePublication(p: App, id: Id, strategy: nat) returns (forward: bool)
      requires p in hosts
      modifies this`pubIndex, this`hosts
      ensures Reply(State(), forward) == RemovePublication(old(State()), p, id, strategy)
    {
      forward := false;
      if strategy == NODE_LOCAL || strategy == DOMAIN_LOCAL {
        if id in pubIndex {
          var ap := pubIndex[id];
          if ap.strategy == strategy {
            hosts := hosts[p := hosts[p].(pubs := hosts[p].pubs - {id})];
            var publishers := ap.publishers - {p};
            if publishers == map[] {
              pubIndex := pubIndex - {id};
              forward := true;
            } else {
              pubIndex := pubIndex[id := ap.(publishers := publishers)];
            }
          }
        }
      }
    }

    method StoreActiveSubscription(p: App, id: Id, strategy: nat, scope: bool) returns (forward: bool)
      requires p in hosts
      modifies this`subIndex, this`hosts
      ensures Reply(State(), forward) == StoreSubscription(old(State()), p, id, strategy, scope)
    {
      forward := false;
      if id !in subIndex {
        subIndex := subIndex[id := Subscription(strategy, scope, {} + {p})];
        hosts := hosts[p := hosts[p].(subs := hosts[p].subs + {id})];
        forward := strategy != IMPLICIT_RENDEZVOUS && strategy != LINK_LOCAL && strategy != BROADCAST_IF;
      } else {
        var sub := subIndex[id];
        if sub.strategy == strategy {
          subIndex := subIndex[id := sub.(subscribers := sub.subscribers + {p})];
          hosts := hosts[p := hosts[p].(subs := hosts[p].subs + {id})];
        }
      }
    }

    method RemoveActiveSubscription(p: App, id: Id, strategy: nat) returns (forward: bool)
      requires p in hosts
      modifies this`subIndex, this`hosts
      ensures Reply(State(), forward) == RemoveSubscription(old(State()), p, id, strategy)
    {
      forward := false;
      if id in subIndex {
        var sub := subIndex[id];
        if sub.strategy == strategy {
          hosts := hosts[p := hosts[p].(subs := hosts[p].subs - {id})];
          var subscribers := sub.subscribers - {p};
          if subscribers == {} {
            subIndex := subIndex - {id};
            forward := strategy != IMPLICIT_RENDEZVOUS && strategy != LINK_LOCAL && strategy != BROADCAST_IF;
          } else {
            subIndex := subIndex[id := sub.(subscribers := subscribers)];
          }
        }
      }
    }

    /** A request of application p; forwarded exactly if it changes what the machine as a whole does. */
    method HandleLocalRequest(p: App, verb: Verb, scope: bool, id: Id, prefix: Id, strategy: nat)
      requires Good() && id != []
      modifies this`pubIndex, this`subIndex, this`hosts, this`forwarded
      ensures Good() && p in hosts
      ensures var full := FullId(id, prefix);
        forwarded == old(forwarded) + if pubIndex.Keys != old(pubIndex).Keys || ForwardedSubs(State()) != ForwardedSubs(old(State()))
                                      then [Forward(verb, scope, full)] else []
      ensures var full, reaches := FullId(id, prefix), strategy != LINK_LOCAL && strategy != IMPLICIT_RENDEZVOUS && strategy != BROADCAST_IF;
        |forwarded| > |old(forwarded)| <==>
          match verb
          case Publish => full !in old(pubIndex) && (strategy == NODE_LOCAL || strategy == DOMAIN_LOCAL)
          case Unpublish => full in old(pubIndex) && full !in pubIndex
          case Subscribe => full !in old(subIndex) && reaches
          case Unsubscribe => full in old(subIndex) && full !in subIndex && reaches
      ensures var st, full := old(State()), FullId(id, prefix);
        var accepted := (strategy == NODE_LOCAL || strategy == DOMAIN_LOCAL) && (full in st.pubIndex ==> st.pubIndex[full].strategy == strategy);
        forall q, x ::
        && (Publishes(State(), q, x) <==>
              if q == p && x == full && verb.Publish? && accepted then true
              else if q == p && x == full && verb.Unpublish? && accepted then false else Publishes(st, q, x))
        && (Subscribes(State(), q, x) <==>
              if q == p && x == full && verb.Subscribe? && (full in st.subIndex ==> st.subIndex[full].strategy == strategy) then true
              else if q == p && x == full && verb.Unsubscribe? && full in st.subIndex && st.subIndex[full].strategy == strategy then false
              else Subscribes(st, q, x))
      ensures KeepsEntries(old(State()), State(), FullId(id, prefix))
      ensures var full := FullId(id, prefix);
        && (full in pubIndex && full !in old(pubIndex) ==> pubIndex[full] == Publication(strategy, scope, map[p := false], [], {}))
        && (full in subIndex && full !in old(subIndex) ==> subIndex[full] == Subscription(strategy, scope, {p}))
    {
      hide ProxyState.Inv, Told, ForwardedSubs, StorePublication, RemovePublication, StoreSubscription, RemoveSubscription, KeepsEntries, SameKinds;
      GetLocalHost(p);
      var full := FullId(id, prefix);
      ghost var st := State();
      SameButHosts(old(State()), st);
      ForwardsIf(st, p, full, strategy, scope);
      var forward;
      match verb {
        case Publish =>
          StoredPublication(st, forwarded, p, full, strategy, scope);
          StorePublicationFrame(st, p, full, strategy, scope);
          forward := StoreActivePublication(p, full, strategy, scope);
        case Unpublish =>
          RemovedPublication(st, forwarded, p, full, strategy, scope);
          StorePublicationFrame(st, p, full, strategy, scope);
          forward := RemoveActivePublication(p, full, strategy);
        case Subscribe =>
          StoredSubscription(st, forwarded, p, full, strategy, scope);
          StoreSubscriptionFrame(st, p, full, strategy, scope);
          forward := StoreActiveSubscription(p, full, strategy, scope);
        case Unsubscribe =>
          RemovedSubscription(st, forwarded, p, full, strategy, scope);
          StoreSubscriptionFrame(st, p, full, strategy, scope);
          forward := RemoveActiveSubscription(p, full, strategy);
      }
      assert Served(st, Reply(State(), forward), forwarded, Forward(verb, scope, full));
      assert forwarded + [] == forwarded;
      if forward {
        forwarded := forwarded + [Forward(verb, scope, full)];
      }
    }

    // ---------- notifications of the rendezvous node ----------

    static method AnyStarted(ap: Publication) returns (b: bool)
      ensures b == (Started(ap) != {})
    {
      var todo := ap.publishers.Keys;
      while todo != {}
        invariant todo <= ap.publishers.Keys && forall p :: p in ap.publishers && p !in todo ==> !ap.publishers[p]
        decreases todo
      {
        var p :| p in todo;
        if ap.publishers[p] {
          assert p in Started(ap);
          return true;
        }
        todo := todo - {p};
      }
      b := false;
    }

    /** START_PUBLISH: one publisher is told to start, unless one of this item's publishers already has been. */
    method HandleStart(ids: seq<Id>, fid: set<nat>)
      requires Good()
      modifies this`pubIndex, this`told
      ensures Good() && pubIndex.Keys == old(pubIndex).Keys
      ensures var k := FirstStarted(old(pubIndex), ids);
        k < |ids| ==> pubIndex == Learn(old(pubIndex), ids[..k + 1], ids, fid) && told == old(told)
      ensures FirstStarted(old(pubIndex), ids) == |ids| ==>
        var j := FirstPresent(old(pubIndex), ids);
        if j == |ids| then pubIndex == old(pubIndex) && told == old(told)
        else StartedOne(Learn(old(pubIndex), ids, ids, fid), pubIndex, ids[j], old(told), told)
      ensures forall id :: id in pubIndex ==>
        && pubIndex[id].strategy == old(pubIndex)[id].strategy && pubIndex[id].isScope == old(pubIndex)[id].isScope
        && pubIndex[id].publishers.Keys == old(pubIndex)[id].publishers.Keys
        && if id in ids[..ReadUpTo(old(pubIndex), ids)] then pubIndex[id].known == ids && pubIndex[id].fid == fid
           else pubIndex[id] == old(pubIndex)[id]
      ensures old(told) <= told && |told| <= |old(told)| + 1
      ensures |told| > |old(told)| <==> Present(old(pubIndex), ids) && !Running(old(pubIndex), ids)
      ensures forall k :: |old(told)| <= k < |told| ==>
        told[k].start && told[k].id in ids && told[k].id in pubIndex && Started(pubIndex[told[k].id]) == {told[k].app}
      ensures Present(pubIndex, ids) ==> Running(pubIndex, ids)
    {
      hide ProxyState.Inv, Told, Learn, StartedOne, Present, Running, ReadUpTo, Started;
      ghost var m := pubIndex;
      var i := 0;
      LearnNothing(m, ids, fid);
      assert ids[..0] == [];
      while i < |ids|
        invariant 0 <= i <= FirstStarted(m, ids) <= |ids|
        invariant pubIndex == Learn(m, ids[..i], ids, fid) && told == old(told)
      {
        LearnMore(m, ids, i, fid);
        LearnKeys(m, ids[..i], ids, fid);
        FirstStartedStep(m, ids, i);
        if ids[i] in pubIndex {
          var ap := pubIndex[ids[i]].(known := ids, fid := fid);
          pubIndex := pubIndex[ids[i] := ap];
          var shouldBreak := AnyStarted(ap);
          LearnStarted(m, ids[..i], ids, fid, ids[i]);
          if shouldBreak {
            LearnKeepsInv(old(State()), forwarded, ids[..i + 1], ids, fid);
            LearnKeys(m, ids[..i + 1], ids, fid);
            LearnStarted(m, ids[..i + 1], ids, fid, ids[i]);
            StartIs(m, pubIndex, ids, fid, told, told);
            return;
          }
        }
        i := i + 1;
      }
      assert ids[..i] == ids;
      LearnKeepsInv(old(State()), forwarded, ids, ids, fid);
      LearnKeys(m, ids, ids, fid);
      i := 0;
      while i < |ids|
        invariant 0 <= i <= FirstPresent(m, ids) <= |ids| && pubIndex == Learn(m, ids, ids, fid) && told == old(told)
      {
        FirstPresentStep(m, ids, i);
        if ids[i] in pubIndex {
          LearnStarted(m, ids, ids, fid, ids[i]);
          NoneStarted(m, ids, i);
          StartOne(ids[i]);
          StartIs(m, pubIndex, ids, fid, old(told), told);
          return;
        }
        i := i + 1;
      }
      NonePresent(m, ids, fid);
      StartIs(m, pubIndex, ids, fid, told, told);
    }

    method StartOne(id: Id)
      requires Good() && id in pubIndex && Started(pubIndex[id]) == {}
      modifies this`pubIndex, this`told
      ensures Good() && pubIndex.Keys == old(pubIndex).Keys && StartedOne(old(pubIndex), pubIndex, id, old(told), told)
      ensures Started(pubIndex[id]) != {}
    {
      hide Told;
      ghost var st := State();
      assert PubEntry(st, id);
      var ap := pubIndex[id];
      assert ap.publishers.Keys != {};
      var p :| p in ap.publishers.Keys;
      pubIndex := pubIndex[id := ap.(publishers := ap.publishers[p := true])];
      assert Started(pubIndex[id]) == {p};
      told := told + [Notification(true, p, id)];
      forall x | x in st.pubIndex ensures AtMostOne(Started(pubIndex[x])) {
        assert PubEntry(st, x);
      }
      assert pubIndex[id].publishers.Keys == ap.publishers.Keys;
      SamePublishersKeepInv(st, State(), forwarded);
    }

    /** STOP_PUBLISH: whoever was started is told to stop. */
    method HandleStop(ids: seq<Id>)
      requires Good()
      modifies this`pubIndex, this`told
      ensures Good() && pubIndex == Stop(old(pubIndex), ids, ids) && pubIndex.Keys == old(pubIndex).Keys
      ensures forall id :: id in pubIndex && id in ids ==>
        && pubIndex[id].fid == {} && pubIndex[id].known == ids && forall p :: p in pubIndex[id].publishers ==> !pubIndex[id].publishers[p]
      ensures forall id :: id in pubIndex && id in ids ==>
        && pubIndex[id].strategy == old(pubIndex)[id].strategy && pubIndex[id].isScope == old(pubIndex)[id].isScope
        && pubIndex[id].publishers.Keys == old(pubIndex)[id].publishers.Keys
      ensures forall id :: id in pubIndex && id !in ids ==> pubIndex[id] == old(pubIndex)[id]
      ensures |old(told)| <= |told| && told[..|old(told)|] == old(told)
      ensures forall n :: n in told[|old(told)|..] <==>
        !n.start && n.id in ids && n.id in old(pubIndex) && n.app in Started(old(pubIndex)[n.id])
    {
      hide Stop, Told;
      ghost var m := pubIndex;
      ghost var news: seq<Notification> := [];
      StopNothing(m, ids);
      var i := 0;
      assert ids[..0] == [];
      while i < |ids|
        invariant 0 <= i <= |ids| && pubIndex == Stop(m, ids[..i], ids) && told == old(told) + news
        invariant forall n :: n in news <==> !n.start && n.id in ids[..i] && n.id in m && n.app in Started(m[n.id])
      {
        StopMore(m, ids, i);
        if ids[i] in pubIndex {
          StopAt(m, ids[..i], ids, ids[i]);
          ghost var more := StopPublishers(ids[i], ids);
          news := news + more;
        }
        i := i + 1;
      }
      assert ids[..i] == ids;
      assert told[|old(told)|..] == news;
      StopKeepsInv(old(State()), forwarded, ids);
      StopIs(m, ids, ids);
    }

    method StopPublishers(id: Id, ids: seq<Id>) returns (ghost more: seq<Notification>)
      requires id in pubIndex
      modifies this`pubIndex, this`told
      ensures pubIndex == old(pubIndex)[id := Stopped(old(pubIndex)[id], ids)]
      ensures told == old(told) + more
      ensures forall n :: n in more <==> !n.start && n.id == id && n.app in Started(old(pubIndex)[id])
    {
      var ap := pubIndex[id];
      var publishers := ap.publishers;
      var todo := publishers.Keys;
      more := [];
      while todo != {}
        invariant pubIndex == old(pubIndex) && todo <= ap.publishers.Keys == publishers.Keys && told == old(told) + more
        invariant forall p :: p in publishers ==> publishers[p] == (p in todo && ap.publishers[p])
        invariant forall n :: n in more <==> !n.start && n.id == id && n.app in ap.publishers && n.app !in todo && ap.publishers[n.app]
        decreases todo
      {
        var p :| p in todo;
        if publishers[p] {
          publishers := publishers[p := false];
          told := told + [Notification(false, p, id)];
          more := more + [Notification(false, p, id)];
        }
        todo := todo - {p};
      }
      pubIndex := pubIndex[id := ap.(known := ids, fid := {}, publishers := publishers)];
      assert publishers.Keys == Stopped(ap, ids).publishers.Keys;
      assert publishers == Stopped(ap, ids).publishers;
    }

    // ---------- data ----------

    /** The local applications data known under the given identifiers is for, each with the last identifier that matches. */
    method FindLocalSubscribers(ids: seq<Id>) returns (found: bool, subs: map<App, Id>)
      ensures found == (subs != map[]) && Found(State(), subs, ids)
      ensures forall p :: p in subs <==>
        exists i :: 0 <= i < |ids| && (Subscribes(State(), p, ids[i]) || (ids[i] != [] && Subscribes(State(), p, Front(ids[i]))))
    {
      hide Found, Interested;
      found, subs := false, map[];
      FoundNothing(State());
      assert ids[..0] == [];
      for i := 0 to |ids|
        invariant found == (subs != map[]) && Found(State(), subs, ids[..i])
      {
        var known := ids[i];
        var all := (if known in subIndex then subIndex[known].subscribers else {})
          + if FatherId(known) in subIndex then subIndex[FatherId(known)].subscribers else {};
        InterestedIs(State(), known, all);
        FoundMore(State(), subs, ids[..i], known, all);
        MapMore(subs, all, known);
        subs := subs + map p | p in all :: known;
        found := found || all != {};
        assert ids[..i + 1] == ids[..i] + [known];
      }
      assert ids[..|ids|] == ids;
      FoundIs(State(), subs, ids);
    }

    // ---------- disconnecting ----------

    /** Drops one publication of p; the rendezvous node hears of it when nobody else is left. */
    method DropPublication(p: App, id: Id) returns (ghost news: seq<Forward>)
      requires Good() && p in hosts && id in hosts[p].pubs
      modifies this`pubIndex, this`hosts, this`forwarded, this`told
      ensures Good() && DroppedPubs(old(pubIndex), pubIndex, p, {id}) && hosts == Unlisted(old(State()), p, {id}, {})
      ensures id in old(pubIndex)
      ensures news == if id in SolePubs(old(pubIndex), p, {id}) then [Forward(Unpublish, old(pubIndex)[id].isScope, id)] else []
      ensures forwarded == old(forwarded) + news
      ensures Takeovers(old(pubIndex), pubIndex, p, {id}, old(told), told)
    {
      hide Told, ForwardedSubs, SameKinds;
      ghost var st := State();
      assert Lists(st, p, true, id) && Publishes(st, p, id) && PubEntry(st, id);
      var ap := pubIndex[id];
      UnlistedOne(st, p, id);
      hosts := hosts[p := hosts[p].(pubs := hosts[p].pubs - {id})];
      var shouldNotify := !ap.isScope && ap.publishers[p];
      var publishers := ap.publishers - {p};
      ghost var first := p;
      DropOneCases(ap.publishers, p);
      if publishers == map[] {
        pubIndex := pubIndex - {id};
        forwarded := forwarded + [Forward(Unpublish, ap.isScope, id)];
        news := [Forward(Unpublish, ap.isScope, id)];
        assert DroppedAt(st.pubIndex, pubIndex, p, id);
        SameForwardedSubs(st, State());
        SameKindsBut(st, State(), id);
        assert pubIndex.Keys == st.pubIndex.Keys - {id};
        ToldMore(st, State(), old(forwarded), Forward(Unpublish, ap.isScope, id));
      } else {
        if shouldNotify {
          assert publishers.Keys != {};
          var q :| q in publishers.Keys;
          publishers := publishers[q := true];
          told := told + [Notification(true, q, id)];
          OnlyStarted(ap, p, q);
          first := q;
        }
        pubIndex := pubIndex[id := ap.(publishers := publishers)];
        HandedOver(ap, pubIndex[id], p);
        assert DroppedAt(st.pubIndex, pubIndex, p, id);
        news := [];
        SameForwardedSubs(st, State());
        SameKindsBut(st, State(), id);
        assert pubIndex.Keys == st.pubIndex.Keys;
        SameKeysStillTold(st, State(), forwarded);
      }
      DroppedPubsKeepInv(st, State(), p, {id});
      OneTakeover(st.pubIndex, pubIndex, p, id, first, old(told), told);
    }

    /** One more publication dropped, as part of dropping all of one kind. */
    method DropNext(p: App, id: Id, scope: bool, ghost st: Proxy, ghost done: set<Id>, ghost log: seq<Forward>, ghost news: seq<Forward>,
                    ghost told0: seq<Notification>)
      returns (ghost news': seq<Forward>)
      requires Good() && p in st.hosts && DroppingPubs(st, State(), p, scope, done, log, forwarded, news)
      requires id in st.hosts[p].pubs && id !in done && id in st.pubIndex && st.pubIndex[id].isScope == scope
      requires Takeovers(st.pubIndex, pubIndex, p, done, told0, told)
      modifies this`pubIndex, this`hosts, this`forwarded, this`told
      ensures Takeovers(st.pubIndex, pubIndex, p, done + {id}, told0, told)
      ensures Good() && DroppingPubs(st, State(), p, scope, done + {id}, log, forwarded, news')
      ensures news' == news || news' == news + [Forward(Unpublish, scope, id)]
    {
      hide ProxyState.Inv, Told, DroppedPubs, Announced, Handed, Takeovers;
      ghost var m1, told1 := pubIndex, told;
      UnlistedMore(st, State(), p, done, {id}, {}, {});
      NotYetDropped(st.pubIndex, pubIndex, p, done, id);
      ghost var more := DropPublication(p, id);
      DroppedMore(st.pubIndex, m1, pubIndex, p, done, {id});
      TakeoversMore(st.pubIndex, m1, pubIndex, p, done, id, told0, told1, told);
      NewsMore(st.pubIndex, p, done, id, news, more, scope);
      news' := news + more;
      assert news + [] == news;
    }

    /** Drops all publications of items of p, in any order. */
    method DeleteItemPublications(p: App) returns (ghost news: seq<Forward>)
      requires Good() && p in hosts
      modifies this`pubIndex, this`hosts, this`forwarded, this`told
      ensures Good()
      ensures DroppingPubs(old(State()), State(), p, false, PubsOfKind(old(pubIndex), old(hosts)[p].pubs, false), old(forwarded), forwarded, news)
      ensures Takeovers(old(pubIndex), pubIndex, p, PubsOfKind(old(pubIndex), old(hosts)[p].pubs, false), old(told), told)
    {
      hide Good, DroppingPubs, Takeovers;
      ghost var st := State();
      NoTakeovers(st.pubIndex, st.pubIndex, p, PubsOfKind(st.pubIndex, {}, false), told);
      assert st.hosts[p].pubs - st.hosts[p].pubs == {};
      var todo := hosts[p].pubs;
      news := [];
      DroppingNone(st, p, false, PubsOfKind(st.pubIndex, st.hosts[p].pubs - todo, false), forwarded);
      while todo != {}
        invariant Good() && p in hosts && todo <= st.hosts[p].pubs
        invariant DroppingPubs(st, State(), p, false, PubsOfKind(st.pubIndex, st.hosts[p].pubs - todo, false), old(forwarded), forwarded, news)
        invariant Takeovers(st.pubIndex, pubIndex, p, PubsOfKind(st.pubIndex, st.hosts[p].pubs - todo, false), old(told), told)
        decreases todo
      {
        var id :| id in todo;
        ghost var done := PubsOfKind(st.pubIndex, st.hosts[p].pubs - todo, false);
        DroppingLooks(st, State(), p, false, done, old(forwarded), forwarded, news, id);
        GoodEntry(p, id);
        if !pubIndex[id].isScope {
          news := DropNext(p, id, false, st, done, old(forwarded), news, old(told));
          DroppingLooks(st, State(), p, false, done + {id}, old(forwarded), forwarded, news, id);
        }
        KindStep(st.pubIndex, st.hosts[p].pubs, todo, id, false);
        assert done + {} == done;
        todo := todo - {id};
      }
      assert st.hosts[p].pubs - todo == st.hosts[p].pubs;
    }

    lemma GoodInv()
      requires Good()
      ensures ProxyState.Inv(State()) && Told(State(), forwarded)
    {
    }

    lemma GoodEntry(p: App, id: Id)
      requires Good() && p in hosts
      ensures id in hosts[p].pubs ==> id in pubIndex && id != []
      ensures id in hosts[p].subs ==> id in subIndex && id != []
    {
      StillThere(State(), p, id);
      assert id in pubIndex ==> PubEntry(State(), id);
    }

    /** The number of fragments of the deepest scope p publishes. */
    method MaxPublishedLevel(p: App) returns (level: nat)
      requires Good() && p in hosts
      ensures forall id :: id in PubsOfKind(pubIndex, hosts[p].pubs, true) ==> |id| <= level
    {
      hide Good;
      level := 0;
      var todo := hosts[p].pubs;
      while todo != {}
        invariant todo <= hosts[p].pubs
        invariant forall id :: id in PubsOfKind(pubIndex, hosts[p].pubs - todo, true) ==> |id| <= level
        decreases todo
      {
        var id :| id in todo;
        GoodEntry(p, id);
        if pubIndex[id].isScope && |id| > level {
          level := |id|;
        }
        KindStep(pubIndex, hosts[p].pubs, todo, id, true);
        todo := todo - {id};
      }
      assert hosts[p].pubs - todo == hosts[p].pubs;
    }

    /** Drops all publications of scopes of p, the deepest first. */
    method DeleteScopePublications(p: App) returns (ghost news: seq<Forward>)
      requires Good() && p in hosts
      modifies this`pubIndex, this`hosts, this`forwarded, this`told
      ensures Good() && DeepestFirst(news)
      ensures DroppingPubs(old(State()), State(), p, true, PubsOfKind(old(pubIndex), old(hosts)[p].pubs, true), old(forwarded), forwarded, news)
      ensures told == old(told)
    {
      hide Good, DroppingPubs, PubsOfKind, ProxyState.Inv;
      ghost var st := State();
      GoodInv();
      ghost var kind := PubsOfKind(st.pubIndex, st.hosts[p].pubs, true);
      var level := MaxPublishedLevel(p);
      news := [];
      DroppingNone(st, p, true, Deeper(kind, level), forwarded);
      while level > 0
        invariant Good() && p in hosts && DeepestFirst(news) && forall m :: m in news ==> |m.id| > level
        invariant DroppingPubs(st, State(), p, true, Deeper(kind, level), old(forwarded), forwarded, news) && told == old(told)
      {
        news := DeleteScopesAt(p, level, st, old(forwarded), news);
        level := level - 1;
      }
      NonemptyKind(st, p, kind);
      assert Deeper(kind, 0) == kind;
    }

    method DeleteScopesAt(p: App, level: nat, ghost st: Proxy, ghost log: seq<Forward>, ghost news: seq<Forward>)
      returns (ghost news': seq<Forward>)
      requires Good() && p in st.hosts && p in hosts && level > 0 && ProxyState.Inv(st)
      requires DeepestFirst(news) && forall m :: m in news ==> |m.id| > level
      requires DroppingPubs(st, State(), p, true, Deeper(PubsOfKind(st.pubIndex, st.hosts[p].pubs, true), level), log, forwarded, news)
      modifies this`pubIndex, this`hosts, this`forwarded, this`told
      ensures Good() && p in hosts && DeepestFirst(news') && forall m :: m in news' ==> |m.id| > level - 1
      ensures DroppingPubs(st, State(), p, true, Deeper(PubsOfKind(st.pubIndex, st.hosts[p].pubs, true), level - 1), log, forwarded, news')
      ensures told == old(told)
    {
      hide Good, DroppingPubs, PubsOfKind, ProxyState.Inv, DeepestFirst, Takeovers;
      ghost var kind := PubsOfKind(st.pubIndex, st.hosts[p].pubs, true);
      var todo := hosts[p].pubs;
      ghost var done := Deeper(kind, level);
      news' := news;
      DroppingTodo(st, State(), p, true, done, log, forwarded, news');
      KindIsListed(st, p, true);
      while todo != {}
        invariant Good() && p in hosts && todo <= st.hosts[p].pubs && done !! todo
        invariant done == Deeper(kind, level) + set id | id in kind && |id| == level && id !in todo
        invariant DeepestFirst(news') && forall m :: m in news' ==> |m.id| >= level
        invariant DroppingPubs(st, State(), p, true, done, log, forwarded, news') && told == old(told)
        decreases todo
      {
        var id :| id in todo;
        DroppingLooks(st, State(), p, true, done, log, forwarded, news', id);
        GoodEntry(p, id);
        KindAt(st, p, id);
        if |id| == level && pubIndex[id].isScope {
          ghost var before := news';
          ScopesOnly(st, p, done, kind);
          NoTakeovers(st.pubIndex, pubIndex, p, done, told);
          news' := DropNext(p, id, true, st, done, log, news', told);
          ScopesOnly(st, p, done + {id}, kind);
          NothingTold(st.pubIndex, pubIndex, p, done + {id}, old(told), told);
          DeepestMore(before, Forward(Unpublish, true, id));
          done := done + {id};
          DroppingLooks(st, State(), p, true, done, log, forwarded, news', id);
        }
        todo := todo - {id};
      }
      assert done == Deeper(kind, level - 1);
    }

    /** One more subscription dropped, as part of dropping all of one kind. */
    method DropNextSub(p: App, id: Id, scope: bool, ghost st: Proxy, ghost done: set<Id>, ghost log: seq<Forward>, ghost news: seq<Forward>)
      returns (ghost news': seq<Forward>)
      requires Good() && p in st.hosts && DroppingSubs(st, State(), p, scope, done, log, forwarded, news)
      requires id in st.hosts[p].subs && id !in done && id in st.subIndex && st.subIndex[id].isScope == scope
      modifies this`subIndex, this`hosts, this`forwarded
      ensures Good() && DroppingSubs(st, State(), p, scope, done + {id}, log, forwarded, news')
      ensures news' == news || news' == news + [Forward(Unsubscribe, scope, id)]
    {
      hide ProxyState.Inv, Told, Announced, DropSubs, ForwardedSubs;
      ghost var st1 := State();
      UnlistedMore(st, st1, p, {}, {}, done, {id});
      UnlistedOne(st1, p, id);
      DropSubsStep(st.subIndex, p, done, id);
      SubNewsMore(st.subIndex, p, done, id, news, scope);
      StillThere(st1, p, id);
      OneSubDropped(st1, forwarded, p, id);
      var sub := subIndex[id];
      hosts := hosts[p := hosts[p].(subs := hosts[p].subs - {id})];
      var subscribers := sub.subscribers - {p};
      news' := news;
      if subscribers == {} {
        subIndex := subIndex - {id};
        if sub.strategy != IMPLICIT_RENDEZVOUS && sub.strategy != LINK_LOCAL && sub.strategy != BROADCAST_IF {
          forwarded := forwarded + [Forward(Unsubscribe, sub.isScope, id)];
          news' := news + [Forward(Unsubscribe, sub.isScope, id)];
        }
      } else {
        subIndex := subIndex[id := sub.(subscribers := subscribers)];
      }
    }

    /** Drops all subscriptions of items of p, in any order. */
    method DeleteItemSubscriptions(p: App) returns (ghost news: seq<Forward>)
      requires Good() && p in hosts
      modifies this`subIndex, this`hosts, this`forwarded
      ensures Good()
      ensures DroppingSubs(old(State()), State(), p, false, SubsOfKind(old(subIndex), old(hosts)[p].subs, false), old(forwarded), forwarded, news)
    {
      hide Good, DroppingSubs;
      ghost var st := State();
      var todo := hosts[p].subs;
      news := [];
      DroppingNoSubs(st, p, false, SubsOfKind(st.subIndex, st.hosts[p].subs - todo, false), forwarded);
      while todo != {}
        invariant Good() && p in hosts && todo <= st.hosts[p].subs
        invariant DroppingSubs(st, State(), p, false, SubsOfKind(st.subIndex, st.hosts[p].subs - todo, false), old(forwarded), forwarded, news)
        decreases todo
      {
        var id :| id in todo;
        ghost var done := SubsOfKind(st.subIndex, st.hosts[p].subs - todo, false);
        DroppingSubsLooks(st, State(), p, false, done, old(forwarded), forwarded, news, id);
        GoodEntry(p, id);
        if !subIndex[id].isScope {
          news := DropNextSub(p, id, false, st, done, old(forwarded), news);
          DroppingSubsLooks(st, State(), p, false, done + {id}, old(forwarded), forwarded, news, id);
        }
        SubKindStep(st.subIndex, st.hosts[p].subs, todo, id, false);
        assert done + {} == done;
        todo := todo - {id};
      }
      assert st.hosts[p].subs - todo == st.hosts[p].subs;
    }

    /** The number of fragments of the deepest scope p subscribes to. */
    method MaxSubscribedLevel(p: App) returns (level: nat)
      requires Good() && p in hosts
      ensures forall id :: id in SubsOfKind(subIndex, hosts[p].subs, true) ==> |id| <= level
    {
      hide Good;
      level := 0;
      var todo := hosts[p].subs;
      while todo != {}
        invariant todo <= hosts[p].subs
        invariant forall id :: id in SubsOfKind(subIndex, hosts[p].subs - todo, true) ==> |id| <= level
        decreases todo
      {
        var id :| id in todo;
        GoodEntry(p, id);
        if subIndex[id].isScope && |id| > level {
          level := |id|;
        }
        SubKindStep(subIndex, hosts[p].subs, todo, id, true);
        todo := todo - {id};
      }
      assert hosts[p].subs - todo == hosts[p].subs;
    }

    /** Drops all subscriptions of scopes of p, the deepest first. */
    method DeleteScopeSubscriptions(p: App) returns (ghost news: seq<Forward>)
      requires Good() && p in hosts
      modifies this`subIndex, this`hosts, this`forwarded
      ensures Good() && DeepestFirst(news)
      ensures DroppingSubs(old(State()), State(), p, true, SubsOfKind(old(subIndex), old(hosts)[p].subs, true), old(forwarded), forwarded, news)
    {
      hide Good, DroppingSubs, SubsOfKind, ProxyState.Inv;
      ghost var st := State();
      GoodInv();
      ghost var kind := SubsOfKind(st.subIndex, st.hosts[p].subs, true);
      var level := MaxSubscribedLevel(p);
      news := [];
      DroppingNoSubs(st, p, true, Deeper(kind, level), forwarded);
      while level > 0
        invariant Good() && p in hosts && DeepestFirst(news) && forall m :: m in news ==> |m.id| > level
        invariant DroppingSubs(st, State(), p, true, Deeper(kind, level), old(forwarded), forwarded, news)
      {
        news := DeleteSubsAt(p, level, st, old(forwarded), news);
        level := level - 1;
      }
      NonemptySubKind(st, p, kind);
      assert Deeper(kind, 0) == kind;
    }

    method DeleteSubsAt(p: App, level: nat, ghost st: Proxy, ghost log: seq<Forward>, ghost news: seq<Forward>)
      returns (ghost news': seq<Forward>)
      requires Good() && p in st.hosts && p in hosts && level > 0 && ProxyState.Inv(st)
      requires DeepestFirst(news) && forall m :: m in news ==> |m.id| > level
      requires DroppingSubs(st, State(), p, true, Deeper(SubsOfKind(st.subIndex, st.hosts[p].subs, true), level), log, forwarded, news)
      modifies this`subIndex, this`hosts, this`forwarded
      ensures Good() && p in hosts && DeepestFirst(news') && forall m :: m in news' ==> |m.id| > level - 1
      ensures DroppingSubs(st, State(), p, true, Deeper(SubsOfKind(st.subIndex, st.hosts[p].subs, true), level - 1), log, forwarded, news')
    {
      hide Good, DroppingSubs, SubsOfKind, ProxyState.Inv, DeepestFirst;
      ghost var kind := SubsOfKind(st.subIndex, st.hosts[p].subs, true);
      var todo := hosts[p].subs;
      ghost var done := Deeper(kind, level);
      news' := news;
      DroppingSubsTodo(st, State(), p, true, done, log, forwarded, news');
      SubKindIsListed(st, p, true);
      while todo != {}
        invariant Good() && p in hosts && todo <= st.hosts[p].subs && done !! todo
        invariant done == Deeper(kind, level) + set id | id in kind && |id| == level && id !in todo
        invariant DeepestFirst(news') && forall m :: m in news' ==> |m.id| >= level
        invariant DroppingSubs(st, State(), p, true, done, log, forwarded, news')
        decreases todo
      {
        var id :| id in todo;
        DroppingSubsLooks(st, State(), p, true, done, log, forwarded, news', id);
        GoodEntry(p, id);
        SubKindAt(st, p, id);
        if |id| == level && subIndex[id].isScope {
          ghost var before := news';
          news' := DropNextSub(p, id, true, st, done, log, news');
          DeepestMore(before, Forward(Unsubscribe, true, id));
          done := done + {id};
          DroppingSubsLooks(st, State(), p, true, done, log, forwarded, news', id);
        }
        todo := todo - {id};
      }
      assert done == Deeper(kind, level - 1);
    }

    /** Application p disconnects: its item publications go first, then its item subscriptions, then its scopes from the leaves up. */
    method Disconnect(p: App)
      requires Good()
      modifies this
      ensures Good() && hosts == old(hosts) - {p}
      ensures forall id :: !Publishes(State(), p, id) && !Subscribes(State(), p, id)
      ensures p !in old(hosts) ==> pubIndex == old(pubIndex) && subIndex == old(subIndex) && forwarded == old(forwarded)
      ensures SameKinds(old(State()), State())
      ensures old(forwarded) <= forwarded && forall k :: |old(forwarded)| <= k < |forwarded| ==> Undoes(old(forwarded), forwarded[k])
      ensures p in old(hosts) ==>
        && DroppedPubs(old(pubIndex), pubIndex, p, old(hosts)[p].pubs) && subIndex == DropSubs(old(subIndex), p, old(hosts)[p].subs)
        && CleanedUp(old(State()), p, old(forwarded), forwarded)
        && Takeovers(old(pubIndex), pubIndex, p, old(hosts)[p].pubs, old(told), told)
    {
      hide ProxyState.Inv, Told, Takeovers, DroppingPubs, DroppingSubs, DroppedPubs, DropSubs, CleanedUp, DeepestFirst, PubsOfKind, SubsOfKind,
        SameKinds;
      GetLocalHost(p);
      ghost var st, log := State(), forwarded;
      ghost var a := DeleteItemPublications(p);
      ghost var st1, log1 := State(), forwarded;
      DroppingTodo(st, st1, p, false, PubsOfKind(st.pubIndex, st.hosts[p].pubs, false), log, log1, a);
      ghost var b := DeleteItemSubscriptions(p);
      ghost var st2, log2 := State(), forwarded;
      DroppingSubsTodo(st1, st2, p, false, SubsOfKind(st1.subIndex, st1.hosts[p].subs, false), log1, log2, b);
      ghost var c := DeleteScopePublications(p);
      ghost var st3, log3 := State(), forwarded;
      DroppingTodo(st2, st3, p, true, PubsOfKind(st2.pubIndex, st2.hosts[p].pubs, true), log2, log3, c);
      ghost var d := DeleteScopeSubscriptions(p);
      TakeoversLast(st, st1, st2, st3, p, log, log1, log2, log3, a, c, old(told), told);
      AllGone(st, st1, st2, st3, State(), p, log, log1, log2, log3, forwarded, a, b, c, d);
      EmptyHostLeaves(State(), p, forwarded);
      hosts := hosts - {p};
      StrangerDoesNothing(old(State()), p, log, forwarded);
      if p in old(hosts) {
        CleanUpUndoes(st, p, log, forwarded);
        DroppedKinds(old(State()), State(), p, old(hosts)[p].pubs, old(hosts)[p].subs);
      } else {
        SameIndexesKinds(old(State()), State());
      }
    }
  }

  lemma NewHostKeeps(st: Proxy, p: App, log: seq<Forward>)
    requires ProxyState.Inv(st) && Told(st, log) && p !in st.hosts
    ensures ProxyState.Inv(st.(hosts := st.hosts[p := Entry({}, {})])) && Told(st.(hosts := st.hosts[p := Entry({}, {})]), log)
  {
    var st' := st.(hosts := st.hosts[p := Entry({}, {})]);
    assert ForwardedSubs(st') == ForwardedSubs(st);
    forall q, x ensures Lists(st', q, true, x) <==> Publishes(st', q, x) {
      assert Lists(st, q, true, x) <==> Publishes(st, q, x);
    }
    forall q, x ensures Lists(st', q, false, x) <==> Subscribes(st', q, x) {
      assert Lists(st, q, false, x) <==> Subscribes(st, q, x);
    }
    forall x | x in st'.pubIndex ensures PubEntry(st', x) {
      assert PubEntry(st, x);
    }
  }

  lemma SameButHosts(st: Proxy, st': Proxy)
    requires st'.pubIndex == st.pubIndex && st'.subIndex == st.subIndex
    ensures ForwardedSubs(st') == ForwardedSubs(st)
    ensures forall q, x :: (Publishes(st', q, x) <==> Publishes(st, q, x)) && (Subscribes(st', q, x) <==> Subscribes(st, q, x))
    ensures forall st2, id :: KeepsEntries(st', st2, id) <==> KeepsEntries(st, st2, id)
  {
  }

  lemma StorePublicationFrame(st: Proxy, p: App, id: Id, strategy: nat, scope: bool)
    requires p in st.hosts
    ensures StorePublication(st, p, id, strategy, scope).st.subIndex == st.subIndex
    ensures RemovePublication(st, p, id, strategy).st.subIndex == st.subIndex
    ensures p in StorePublication(st, p, id, strategy, scope).st.hosts && p in RemovePublication(st, p, id, strategy).st.hosts
  {
  }

  lemma StoreSubscriptionFrame(st: Proxy, p: App, id: Id, strategy: nat, scope: bool)
    requires p in st.hosts
    ensures StoreSubscription(st, p, id, strategy, scope).st.pubIndex == st.pubIndex
    ensures RemoveSubscription(st, p, id, strategy).st.pubIndex == st.pubIndex
    ensures p in StoreSubscription(st, p, id, strategy, scope).st.hosts && p in RemoveSubscription(st, p, id, strategy).st.hosts
  {
  }

  // ---------- notifications ----------

  /** The position of the first identifier one of whose publishers has been started, or |ids|. */
  ghost function FirstStarted(m: map<Id, Publication>, ids: seq<Id>): (k: nat)
    ensures k <= |ids|
    ensures forall i :: 0 <= i < k && ids[i] in m ==> Started(m[ids[i]]) == {}
    ensures k < |ids| ==> ids[k] in m && Started(m[ids[k]]) != {}
  {
    if ids == [] then 0
    else if ids[0] in m && Started(m[ids[0]]) != {} then 0
    else 1 + FirstStarted(m, ids[1..])
  }

  /** The position of the first identifier that is published here, or |ids|. */
  ghost function FirstPresent(m: map<Id, Publication>, ids: seq<Id>): (k: nat)
    ensures k <= |ids|
    ensures forall i :: 0 <= i < k ==> ids[i] !in m
    ensures k < |ids| ==> ids[k] in m
  {
    if ids == [] then 0 else if ids[0] in m then 0 else 1 + FirstPresent(m, ids[1..])
  }

  lemma FirstStartedStep(m: map<Id, Publication>, ids: seq<Id>, i: nat)
    requires i < |ids| && i <= FirstStarted(m, ids)
    ensures ids[i] in m && Started(m[ids[i]]) != {} ==> FirstStarted(m, ids) == i
    ensures ids[i] !in m || Started(m[ids[i]]) == {} ==> i < FirstStarted(m, ids)
  {
  }

  lemma FirstPresentStep(m: map<Id, Publication>, ids: seq<Id>, i: nat)
    requires i < |ids| && i <= FirstPresent(m, ids)
    ensures ids[i] in m ==> FirstPresent(m, ids) == i
    ensures ids[i] !in m ==> i < FirstPresent(m, ids)
  {
  }

  lemma NoneStarted(m: map<Id, Publication>, ids: seq<Id>, i: nat)
    requires i < |ids| && FirstStarted(m, ids) == |ids| && ids[i] in m
    ensures Started(m[ids[i]]) == {}
  {
  }

  /** The listed publications learn all identifiers of the item and its forwarding identifier. */
  function Learn(m: map<Id, Publication>, ids: seq<Id>, known: seq<Id>, fid: set<nat>): map<Id, Publication> {
    map id | id in m :: if id in ids then m[id].(known := known, fid := fid) else m[id]
  }

  /** How many of the identifiers are read: up to the first one of a started publication. */
  ghost function ReadUpTo(m: map<Id, Publication>, ids: seq<Id>): (k: nat)
    ensures k <= |ids|
  {
    if FirstStarted(m, ids) == |ids| then |ids| else FirstStarted(m, ids) + 1
  }

  lemma LearnIs(m: map<Id, Publication>, ids: seq<Id>, known: seq<Id>, fid: set<nat>)
    ensures Learn(m, ids, known, fid).Keys == m.Keys
    ensures forall id :: id in m ==>
      var ap := Learn(m, ids, known, fid)[id];
      && ap.strategy == m[id].strategy && ap.isScope == m[id].isScope && ap.publishers == m[id].publishers
      && if id in ids then ap.known == known && ap.fid == fid else ap == m[id]
  {
  }

  lemma LearnNothing(m: map<Id, Publication>, known: seq<Id>, fid: set<nat>)
    ensures Learn(m, [], known, fid) == m
  {
  }

  lemma LearnMore(m: map<Id, Publication>, ids: seq<Id>, i: nat, fid: set<nat>)
    requires i < |ids|
    ensures Learn(m, ids[..i + 1], ids, fid) ==
      if ids[i] in m then Learn(m, ids[..i], ids, fid)[ids[i] := m[ids[i]].(known := ids, fid := fid)] else Learn(m, ids[..i], ids, fid)
    ensures ids[i] in m ==>
      && ids[i] in Learn(m, ids[..i], ids, fid)
      && Learn(m, ids[..i], ids, fid)[ids[i]].(known := ids, fid := fid) == m[ids[i]].(known := ids, fid := fid)
  {
    assert ids[..i + 1] == ids[..i] + [ids[i]];
  }

  lemma LearnKeys(m: map<Id, Publication>, ids: seq<Id>, known: seq<Id>, fid: set<nat>)
    ensures Learn(m, ids, known, fid).Keys == m.Keys
  {
  }

  lemma LearnStarted(m: map<Id, Publication>, ids: seq<Id>, known: seq<Id>, fid: set<nat>, id: Id)
    requires id in m
    ensures id in Learn(m, ids, known, fid) && Started(Learn(m, ids, known, fid)[id]) == Started(m[id])
    ensures Started(m[id].(known := known, fid := fid)) == Started(m[id])
  {
  }

  lemma NonePresent(m: map<Id, Publication>, ids: seq<Id>, fid: set<nat>)
    requires FirstPresent(m, ids) == |ids|
    ensures Learn(m, ids, ids, fid) == m
  {
  }

  /** One publisher of id, and no other anywhere, has been told to start. */
  ghost predicate StartedOne(m: map<Id, Publication>, m': map<Id, Publication>, id: Id, told: seq<Notification>, told': seq<Notification>) {
    id in m && exists p {:trigger Notification(true, p, id)} ::
      && p in m[id].publishers && m' == m[id := m[id].(publishers := m[id].publishers[p := true])]
      && Started(m'[id]) == {p} && told' == told + [Notification(true, p, id)]
  }

  /** One of the identifiers is published here. */
  ghost predicate Present(m: map<Id, Publication>, ids: seq<Id>) {
    exists id :: id in ids && id in m
  }

  /** A publisher of one of the identifiers has been started. */
  ghost predicate Running(m: map<Id, Publication>, ids: seq<Id>) {
    exists id :: id in ids && id in m && Started(m[id]) != {}
  }

  /** What a start notification does, field by field. */
  lemma StartIs(m: map<Id, Publication>, m': map<Id, Publication>, ids: seq<Id>, fid: set<nat>, told: seq<Notification>, told': seq<Notification>)
    requires var k := FirstStarted(m, ids);
      k < |ids| ==> m' == Learn(m, ids[..k + 1], ids, fid) && told' == told
    requires FirstStarted(m, ids) == |ids| ==>
      var j := FirstPresent(m, ids);
      if j == |ids| then m' == m && told' == told else StartedOne(Learn(m, ids, ids, fid), m', ids[j], told, told')
    ensures forall id :: id in m' ==>
      && id in m && m'[id].strategy == m[id].strategy && m'[id].isScope == m[id].isScope && m'[id].publishers.Keys == m[id].publishers.Keys
      && if id in ids[..ReadUpTo(m, ids)] then m'[id].known == ids && m'[id].fid == fid else m'[id] == m[id]
    ensures told <= told' && |told'| <= |told| + 1
    ensures |told'| > |told| <==> Present(m, ids) && !Running(m, ids)
    ensures forall k :: |told| <= k < |told'| ==>
      told'[k].start && told'[k].id in ids && told'[k].id in m' && Started(m'[told'[k].id]) == {told'[k].app}
    ensures Present(m', ids) ==> Running(m', ids)
  {
    hide Learn, Started;
    var k, j := FirstStarted(m, ids), FirstPresent(m, ids);
    if k < |ids| {
      LearnIs(m, ids[..k + 1], ids, fid);
      LearnStarted(m, ids[..k + 1], ids, fid, ids[k]);
    } else if j == |ids| {
      assert !Present(m, ids);
    } else {
      LearnIs(m, ids, ids, fid);
      assert ids[..|ids|] == ids;
      var p :| Learn(m, ids, ids, fid)[ids[j]].publishers.Keys >= {p}
        && m' == Learn(m, ids, ids, fid)[ids[j] := Learn(m, ids, ids, fid)[ids[j]].(publishers := Learn(m, ids, ids, fid)[ids[j]].publishers[p := true])]
        && Started(m'[ids[j]]) == {p} && told' == told + [Notification(true, p, ids[j])];
      assert m'[ids[j]].publishers.Keys == m[ids[j]].publishers.Keys;
    }
  }

  /** A publication none of whose publishers is started any more. */
  function Stopped(ap: Publication, known: seq<Id>): Publication {
    ap.(known := known, fid := {}, publishers := map p | p in ap.publishers :: false)
  }

  function Stop(m: map<Id, Publication>, ids: seq<Id>, known: seq<Id>): map<Id, Publication> {
    map id | id in m :: if id in ids then Stopped(m[id], known) else m[id]
  }

  lemma StopIs(m: map<Id, Publication>, ids: seq<Id>, known: seq<Id>)
    ensures Stop(m, ids, known).Keys == m.Keys
    ensures forall id :: id in m && id !in ids ==> Stop(m, ids, known)[id] == m[id]
    ensures forall id :: id in m && id in ids ==>
      var ap := Stop(m, ids, known)[id];
      && ap.fid == {} && ap.known == known && ap.publishers.Keys == m[id].publishers.Keys
      && ap.strategy == m[id].strategy && ap.isScope == m[id].isScope && forall p :: p in ap.publishers ==> !ap.publishers[p]
  {
  }

  lemma StopNothing(m: map<Id, Publication>, known: seq<Id>)
    ensures Stop(m, [], known) == m
  {
  }

  lemma StopMore(m: map<Id, Publication>, ids: seq<Id>, i: nat)
    requires i < |ids|
    ensures Stop(m, ids[..i + 1], ids) ==
      if ids[i] in m then Stop(m, ids[..i], ids)[ids[i] := Stopped(m[ids[i]], ids)] else Stop(m, ids[..i], ids)
    ensures ids[i] in Stop(m, ids[..i], ids) <==> ids[i] in m
    ensures forall x :: x in ids[..i + 1] <==> x in ids[..i] || x == ids[i]
  {
    assert ids[..i + 1] == ids[..i] + [ids[i]];
  }

  lemma StopAt(m: map<Id, Publication>, ids: seq<Id>, known: seq<Id>, id: Id)
    requires id in m
    ensures id in Stop(m, ids, known) && Stopped(Stop(m, ids, known)[id], known) == Stopped(m[id], known)
    ensures Started(Stop(m, ids, known)[id]) == if id in ids then {} else Started(m[id])
  {
    assert Stopped(Stopped(m[id], known), known).publishers == Stopped(m[id], known).publishers;
  }

  /** Flags and known identifiers do not matter to the invariant as long as at most one publisher is started. */
  lemma SamePublishersKeepInv(st: Proxy, st': Proxy, log: seq<Forward>)
    requires ProxyState.Inv(st) && Told(st, log) && st'.subIndex == st.subIndex && st'.hosts == st.hosts
    requires st'.pubIndex.Keys == st.pubIndex.Keys
    requires forall id :: id in st.pubIndex ==>
      && st'.pubIndex[id].publishers.Keys == st.pubIndex[id].publishers.Keys && st'.pubIndex[id].strategy == st.pubIndex[id].strategy
      && st'.pubIndex[id].isScope == st.pubIndex[id].isScope
      && AtMostOne(Started(st'.pubIndex[id]))
    ensures ProxyState.Inv(st') && Told(st', log)
  {
    hide Replay, Tight;
    assert ForwardedSubs(st') == ForwardedSubs(st);
    forall q, x ensures Publishes(st', q, x) <==> Publishes(st, q, x) {
      assert x in st.pubIndex ==> (q in st.pubIndex[x].publishers <==> q in st.pubIndex[x].publishers.Keys);
    }
    forall q, x ensures Lists(st', q, true, x) <==> Publishes(st', q, x) {
      assert Lists(st, q, true, x) <==> Publishes(st, q, x);
    }
    forall q, x ensures Lists(st', q, false, x) <==> Subscribes(st', q, x) {
      assert Lists(st, q, false, x) <==> Subscribes(st, q, x);
    }
    forall x | x in st'.pubIndex ensures PubEntry(st', x) {
      assert PubEntry(st, x);
      assert st.pubIndex[x].publishers.Keys != {};
    }
  }

  lemma LearnKeepsInv(st: Proxy, log: seq<Forward>, ids: seq<Id>, known: seq<Id>, fid: set<nat>)
    requires ProxyState.Inv(st) && Told(st, log)
    ensures ProxyState.Inv(st.(pubIndex := Learn(st.pubIndex, ids, known, fid))) && Told(st.(pubIndex := Learn(st.pubIndex, ids, known, fid)), log)
  {
    hide Told;
    forall id | id in st.pubIndex ensures AtMostOne(Started(Learn(st.pubIndex, ids, known, fid)[id])) {
      assert PubEntry(st, id);
      LearnStarted(st.pubIndex, ids, known, fid, id);
    }
    SamePublishersKeepInv(st, st.(pubIndex := Learn(st.pubIndex, ids, known, fid)), log);
  }

  lemma StopKeepsInv(st: Proxy, log: seq<Forward>, ids: seq<Id>)
    requires ProxyState.Inv(st) && Told(st, log)
    ensures ProxyState.Inv(st.(pubIndex := Stop(st.pubIndex, ids, ids))) && Told(st.(pubIndex := Stop(st.pubIndex, ids, ids)), log)
  {
    hide Told;
    forall id | id in st.pubIndex ensures AtMostOne(Started(Stop(st.pubIndex, ids, ids)[id])) {
      assert PubEntry(st, id);
      StopAt(st.pubIndex, ids, ids, id);
    }
    SamePublishersKeepInv(st, st.(pubIndex := Stop(st.pubIndex, ids, ids)), log);
  }

  // ---------- data ----------

  /** Application p subscribes to the identifier or to the scope right above it. */
  ghost predicate Interested(st: Proxy, p: App, id: Id) {
    Subscribes(st, p, id) || Subscribes(st, p, FatherId(id))
  }

  ghost predicate LastInterest(st: Proxy, p: App, ids: seq<Id>, i: nat) {
    i < |ids| && Interested(st, p, ids[i]) && forall j :: i < j < |ids| ==> !Interested(st, p, ids[j])
  }

  /** subs holds exactly the interested applications, each with the last identifier it is interested in. */
  ghost predicate Found(st: Proxy, subs: map<App, Id>, ids: seq<Id>) {
    && (forall p :: p in subs <==> exists i :: 0 <= i < |ids| && Interested(st, p, ids[i]))
    && (forall p :: p in subs ==> exists i :: 0 <= i < |ids| && LastInterest(st, p, ids, i) && subs[p] == ids[i])
  }

  lemma FoundIs(st: Proxy, subs: map<App, Id>, ids: seq<Id>)
    requires Found(st, subs, ids)
    ensures forall p :: p in subs <==>
      exists i :: 0 <= i < |ids| && (Subscribes(st, p, ids[i]) || (ids[i] != [] && Subscribes(st, p, Front(ids[i]))))
    ensures forall p :: p in subs ==>
      exists i {:trigger ids[i]} ::
        && 0 <= i < |ids| && subs[p] == ids[i]
        && (Subscribes(st, p, ids[i]) || (ids[i] != [] && Subscribes(st, p, Front(ids[i]))))
        && forall j :: i < j < |ids| ==> !Subscribes(st, p, ids[j]) && (ids[j] != [] ==> !Subscribes(st, p, Front(ids[j])))
  {
    hide Subscribes;
    forall p, i | 0 <= i < |ids| ensures Interested(st, p, ids[i]) <==> Subscribes(st, p, ids[i]) || (ids[i] != [] && Subscribes(st, p, Front(ids[i]))) {
    }
    forall p | p in subs
      ensures exists i {:trigger ids[i]} ::
        && 0 <= i < |ids| && subs[p] == ids[i]
        && (Subscribes(st, p, ids[i]) || (ids[i] != [] && Subscribes(st, p, Front(ids[i]))))
        && forall j :: i < j < |ids| ==> !Subscribes(st, p, ids[j]) && (ids[j] != [] ==> !Subscribes(st, p, Front(ids[j])))
    {
      var i :| 0 <= i < |ids| && LastInterest(st, p, ids, i) && subs[p] == ids[i];
      assert Interested(st, p, ids[i]) && forall j :: i < j < |ids| ==> !Interested(st, p, ids[j]);
    }
  }

  lemma FoundNothing(st: Proxy)
    ensures Found(st, map[], [])
  {
  }

  lemma InterestedIs(st: Proxy, id: Id, all: set<App>)
    requires all == (if id in st.subIndex then st.subIndex[id].subscribers else {})
      + if FatherId(id) in st.subIndex then st.subIndex[FatherId(id)].subscribers else {}
    ensures forall p :: p in all <==> Interested(st, p, id)
  {
  }

  lemma MapMore(subs: map<App, Id>, all: set<App>, known: Id)
    ensures subs + (map p | p in all :: known) != map[] <==> subs != map[] || all != {}
  {
    var more := map p | p in all :: known;
    assert more.Keys == all && (subs + more).Keys == subs.Keys + all;
  }

  lemma FoundMore(st: Proxy, subs: map<App, Id>, ids: seq<Id>, known: Id, all: set<App>)
    requires Found(st, subs, ids) && forall p :: p in all <==> Interested(st, p, known)
    ensures Found(st, subs + map p | p in all :: known, ids + [known])
  {
    hide Interested;
    var ids', subs' := ids + [known], subs + map p | p in all :: known;
    forall p ensures p in subs' <==> exists i :: 0 <= i < |ids'| && Interested(st, p, ids'[i]) {
      if p in all {
        assert Interested(st, p, ids'[|ids|]);
      } else if p in subs {
        var i :| 0 <= i < |ids| && Interested(st, p, ids[i]);
        assert Interested(st, p, ids'[i]);
      }
      if i :| 0 <= i < |ids'| && Interested(st, p, ids'[i]) {
        assert i < |ids| ==> Interested(st, p, ids[i]);
      }
    }
    forall p | p in subs' ensures exists i :: 0 <= i < |ids'| && LastInterest(st, p, ids', i) && subs'[p] == ids'[i] {
      if p in all {
        assert LastInterest(st, p, ids', |ids|);
      } else {
        var i :| 0 <= i < |ids| && LastInterest(st, p, ids, i) && subs[p] == ids[i];
        assert LastInterest(st, p, ids', i);
      }
    }
  }

  // ---------- disconnecting ----------

  lemma DropOneCases(publishers: map<App, bool>, p: App)
    requires p in publishers
    ensures publishers - {p} == map[] <==> publishers.Keys == {p}
    ensures (publishers - {p}).Keys == publishers.Keys - {p}
  {
    assert (publishers - {p}).Keys == publishers.Keys - {p};
    if publishers.Keys != {p} {
      LeftOver(publishers.Keys, p);
    }
  }

  lemma UnlistedNone(st: Proxy, p: App)
    requires p in st.hosts
    ensures Unlisted(st, p, {}, {}) == st.hosts
  {
    assert st.hosts[p].pubs - {} == st.hosts[p].pubs && st.hosts[p].subs - {} == st.hosts[p].subs;
  }

  lemma UnlistedOne(st: Proxy, p: App, id: Id)
    requires p in st.hosts
    ensures Unlisted(st, p, {id}, {}) == st.hosts[p := st.hosts[p].(pubs := st.hosts[p].pubs - {id})]
    ensures Unlisted(st, p, {}, {id}) == st.hosts[p := st.hosts[p].(subs := st.hosts[p].subs - {id})]
  {
    assert st.hosts[p].pubs - {} == st.hosts[p].pubs && st.hosts[p].subs - {} == st.hosts[p].subs;
  }

  lemma UnlistedMore(st: Proxy, st1: Proxy, p: App, pubs: set<Id>, pubs': set<Id>, subs: set<Id>, subs': set<Id>)
    requires p in st.hosts && st1.hosts == Unlisted(st, p, pubs, subs)
    ensures p in st1.hosts && Unlisted(st1, p, pubs', subs') == Unlisted(st, p, pubs + pubs', subs + subs')
    ensures Unlisted(st, p, pubs + {}, subs + subs') == Unlisted(st, p, pubs, subs + subs')
    ensures Unlisted(st, p, pubs + pubs', subs + {}) == Unlisted(st, p, pubs + pubs', subs)
  {
    assert st.hosts[p].pubs - pubs - pubs' == st.hosts[p].pubs - (pubs + pubs');
    assert st.hosts[p].subs - subs - subs' == st.hosts[p].subs - (subs + subs');
    assert pubs + {} == pubs && subs + {} == subs;
  }

  lemma SameForwardedSubs(st: Proxy, st': Proxy)
    requires st'.subIndex == st.subIndex
    ensures ForwardedSubs(st') == ForwardedSubs(st)
  {
  }

  lemma SameKindsBut(st: Proxy, st': Proxy, id: Id)
    requires st'.subIndex == st.subIndex
    requires
      || st'.pubIndex == st.pubIndex - {id}
      || (id in st.pubIndex && id in st'.pubIndex && st'.pubIndex == st.pubIndex[id := st'.pubIndex[id]]
            && st'.pubIndex[id].isScope == st.pubIndex[id].isScope && st'.pubIndex[id].strategy == st.pubIndex[id].strategy)
    ensures SameKinds(st, st')
  {
  }

  lemma SameKeysStillTold(st: Proxy, st': Proxy, log: seq<Forward>)
    requires Told(st, log) && st'.pubIndex.Keys == st.pubIndex.Keys && ForwardedSubs(st') == ForwardedSubs(st) && SameKinds(st, st')
    ensures Told(st', log)
  {
    SameKindsTold(st, st', log);
  }

  lemma HandedOver(ap: Publication, ap': Publication, p: App)
    requires p in ap.publishers && AtMostOne(Started(ap)) && ap' == ap.(publishers := ap'.publishers)
    requires if !ap.isScope && ap.publishers[p]
             then exists q :: q in ap.publishers && q != p && ap'.publishers == (ap.publishers - {p})[q := true]
             else ap'.publishers == ap.publishers - {p}
    ensures Handed(ap, ap', p)
  {
    if !ap.isScope && ap.publishers[p] {
      var q :| q in ap.publishers && q != p && ap'.publishers == (ap.publishers - {p})[q := true];
      assert p in Started(ap);
      assert forall x :: x in Started(ap') && x != q ==> x in Started(ap);
      assert Started(ap') == {q};
    } else {
      assert Started(ap') == Started(ap) - {p};
    }
  }

  lemma AnnouncedNone(verb: Verb, scope: bool, ids: set<Id>)
    requires ids == {}
    ensures Announced([], verb, scope, ids)
  {
  }

  lemma StillThere(st: Proxy, p: App, id: Id)
    requires ProxyState.Inv(st) && p in st.hosts
    ensures id in st.hosts[p].pubs ==> id in st.pubIndex && p in st.pubIndex[id].publishers
    ensures id in st.hosts[p].subs ==> id in st.subIndex && p in st.subIndex[id].subscribers
  {
    assert Lists(st, p, true, id) <==> Publishes(st, p, id);
    assert Lists(st, p, false, id) <==> Subscribes(st, p, id);
  }

  /** Some of the publications of p of one kind are gone, and the rendezvous node has been told. */
  ghost predicate DroppingPubs(st: Proxy, st': Proxy, p: App, scope: bool, done: set<Id>,
                               log: seq<Forward>, log': seq<Forward>, news: seq<Forward>) {
    && p in st.hosts && done <= st.hosts[p].pubs
    && st'.subIndex == st.subIndex && DroppedPubs(st.pubIndex, st'.pubIndex, p, done) && st'.hosts == Unlisted(st, p, done, {})
    && Announced(news, Unpublish, scope, SolePubs(st.pubIndex, p, done)) && log' == log + news
  }

  /** p is the started publisher of an item others publish as well. */
  ghost predicate TakesOver(m: map<Id, Publication>, p: App, id: Id) {
    id in m && !m[id].isScope && p in Started(m[id]) && m[id].publishers.Keys != {p}
  }

  /** Since told0, one remaining publisher of every such item in s has been told to start, and nobody anything else. */
  ghost predicate Takeovers(m: map<Id, Publication>, m': map<Id, Publication>, p: App, s: set<Id>,
                            told0: seq<Notification>, told: seq<Notification>) {
    && |told0| <= |told| && told[..|told0|] == told0
    && (forall i :: |told0| <= i < |told| ==> Takeover(m, m', p, s, told[i]))
    && (forall id :: id in s && TakesOver(m, p, id) ==> exists i :: |told0| <= i < |told| && told[i].id == id)
    && (forall i, j :: |told0| <= i < j < |told| ==> told[i].id != told[j].id)
  }

  ghost predicate Takeover(m: map<Id, Publication>, m': map<Id, Publication>, p: App, s: set<Id>, n: Notification) {
    n.start && n.id in s && TakesOver(m, p, n.id) && n.id in m' && Started(m'[n.id]) == {n.app}
  }

  lemma NoTakeovers(m: map<Id, Publication>, m': map<Id, Publication>, p: App, s: set<Id>, told: seq<Notification>)
    requires forall id :: id in s ==> !TakesOver(m, p, id)
    ensures Takeovers(m, m', p, s, told, told)
  {
  }

  lemma NothingTold(m: map<Id, Publication>, m': map<Id, Publication>, p: App, s: set<Id>, told0: seq<Notification>, told: seq<Notification>)
    requires Takeovers(m, m', p, s, told0, told) && forall id :: id in s ==> !TakesOver(m, p, id)
    ensures told == told0
  {
    if |told| > |told0| {
      TakeoverAt(m, m', p, s, told0, told, |told0|);
    }
  }

  lemma TakeoverAt(m: map<Id, Publication>, m': map<Id, Publication>, p: App, s: set<Id>, told0: seq<Notification>, told: seq<Notification>, i: nat)
    requires Takeovers(m, m', p, s, told0, told) && |told0| <= i < |told|
    ensures told[i].id in s && TakesOver(m, p, told[i].id)
  {
    assert Takeover(m, m', p, s, told[i]);
  }

  /** Dropping one publication: the takeover, if there is one, is the only news. */
  lemma OneTakeover(m: map<Id, Publication>, m': map<Id, Publication>, p: App, id: Id, q: App, told0: seq<Notification>, told: seq<Notification>)
    requires id in m
    requires if TakesOver(m, p, id) then told == told0 + [Notification(true, q, id)] && id in m' && Started(m'[id]) == {q} else told == told0
    ensures Takeovers(m, m', p, {id}, told0, told)
  {
    if TakesOver(m, p, id) {
      assert told[|told0|] == Notification(true, q, id);
    }
  }

  lemma OnlyStarted(ap: Publication, p: App, q: App)
    requires AtMostOne(Started(ap)) && p in Started(ap) && q in ap.publishers && q != p
    ensures Started(ap.(publishers := (ap.publishers - {p})[q := true])) == {q}
  {
    assert forall x :: x in ap.publishers && ap.publishers[x] ==> x in Started(ap);
  }

  lemma ScopesOnly(st: Proxy, p: App, s: set<Id>, kind: set<Id>)
    requires p in st.hosts && s <= kind == PubsOfKind(st.pubIndex, st.hosts[p].pubs, true)
    ensures forall id :: id in s ==> !TakesOver(st.pubIndex, p, id)
  {
  }

  lemma TakeoversMore(m: map<Id, Publication>, m1: map<Id, Publication>, m2: map<Id, Publication>, p: App, s: set<Id>, id: Id,
                      told0: seq<Notification>, told1: seq<Notification>, told2: seq<Notification>)
    requires DroppedPubs(m, m1, p, s) && DroppedPubs(m1, m2, p, {id}) && id in m && id !in s
    requires Takeovers(m, m1, p, s, told0, told1) && Takeovers(m1, m2, p, {id}, told1, told2)
    ensures Takeovers(m, m2, p, s + {id}, told0, told2)
  {
    hide DroppedAt, Started;
    forall i | |told0| <= i < |told2| ensures Takeover(m, m2, p, s + {id}, told2[i]) {
      if i < |told1| {
        assert told2[i] == told1[i];
        assert Takeover(m, m1, p, s, told1[i]);
      } else {
        assert Takeover(m1, m2, p, {id}, told2[i]);
      }
    }
    forall x | x in s + {id} && TakesOver(m, p, x) ensures exists i :: |told0| <= i < |told2| && told2[i].id == x {
      if x in s {
        var i :| |told0| <= i < |told1| && told1[i].id == x;
        assert told2[i] == told1[i];
      } else {
        assert TakesOver(m1, p, id);
      }
    }
    forall i, j | |told0| <= i < j < |told2| ensures told2[i].id != told2[j].id {
      if j < |told1| {
        assert told2[i] == told1[i] && told2[j] == told1[j];
      } else if i < |told1| {
        assert told2[i] == told1[i] && Takeover(m, m1, p, s, told1[i]) && Takeover(m1, m2, p, {id}, told2[j]);
      }
    }
  }

  /** Dropping the scopes as well changes none of this. */
  lemma TakeoversLast(st: Proxy, st1: Proxy, st2: Proxy, st3: Proxy, p: App,
                      log: seq<Forward>, log1: seq<Forward>, log2: seq<Forward>, log3: seq<Forward>, a: seq<Forward>, c: seq<Forward>,
                      told0: seq<Notification>, told: seq<Notification>)
    requires ProxyState.Inv(st) && p in st.hosts && p in st2.hosts && st2.pubIndex == st1.pubIndex
    requires DroppingPubs(st, st1, p, false, PubsOfKind(st.pubIndex, st.hosts[p].pubs, false), log, log1, a)
    requires DroppingPubs(st2, st3, p, true, PubsOfKind(st2.pubIndex, st2.hosts[p].pubs, true), log2, log3, c)
    requires Takeovers(st.pubIndex, st1.pubIndex, p, PubsOfKind(st.pubIndex, st.hosts[p].pubs, false), told0, told)
    ensures Takeovers(st.pubIndex, st3.pubIndex, p, st.hosts[p].pubs, told0, told)
  {
    hide ProxyState.Inv, Announced, Started;
    var s := PubsOfKind(st.pubIndex, st.hosts[p].pubs, false);
    forall i | |told0| <= i < |told| ensures Takeover(st.pubIndex, st3.pubIndex, p, st.hosts[p].pubs, told[i]) {
      assert Takeover(st.pubIndex, st1.pubIndex, p, s, told[i]);
      var id := told[i].id;
      assert DroppedAt(st.pubIndex, st1.pubIndex, p, id);
      assert Handed(st.pubIndex[id], st1.pubIndex[id], p);
      assert !st1.pubIndex[id].isScope;
    }
    assert forall id :: id in st.hosts[p].pubs && TakesOver(st.pubIndex, p, id) ==> id in s;
  }

  lemma DroppingNone(st: Proxy, p: App, scope: bool, done: set<Id>, log: seq<Forward>)
    requires p in st.hosts && done == {}
    ensures DroppingPubs(st, st, p, scope, done, log, log, [])
  {
    DroppedNone(st.pubIndex, p);
    UnlistedNone(st, p);
    assert SolePubs(st.pubIndex, p, done) == {};
    AnnouncedNone(Unpublish, scope, SolePubs(st.pubIndex, p, done));
  }

  lemma DroppingLooks(st: Proxy, st': Proxy, p: App, scope: bool, done: set<Id>, log: seq<Forward>, log': seq<Forward>, news: seq<Forward>, id: Id)
    requires DroppingPubs(st, st', p, scope, done, log, log', news)
    ensures p in st'.hosts && st'.hosts[p].pubs == st.hosts[p].pubs - done
    ensures id !in done && id in st'.pubIndex ==> id in st.pubIndex && st'.pubIndex[id] == st.pubIndex[id]
  {
  }

  lemma DroppingTodo(st: Proxy, st': Proxy, p: App, scope: bool, done: set<Id>, log: seq<Forward>, log': seq<Forward>, news: seq<Forward>)
    requires DroppingPubs(st, st', p, scope, done, log, log', news)
    ensures p in st'.hosts && st'.hosts[p].pubs == st.hosts[p].pubs - done
  {
  }

  lemma KindStep(m: map<Id, Publication>, s: set<Id>, todo: set<Id>, id: Id, scope: bool)
    requires todo <= s && id in todo && id in m
    ensures PubsOfKind(m, s - (todo - {id}), scope) == PubsOfKind(m, s - todo, scope) + if m[id].isScope == scope then {id} else {}
  {
    assert s - (todo - {id}) == s - todo + {id};
  }

  /** The identifiers of more than the given number of fragments. */
  ghost function Deeper(ids: set<Id>, level: nat): set<Id> {
    set id | id in ids && |id| > level
  }

  lemma NonemptyKind(st: Proxy, p: App, kind: set<Id>)
    requires ProxyState.Inv(st) && p in st.hosts && kind == PubsOfKind(st.pubIndex, st.hosts[p].pubs, true)
    ensures forall id :: id in kind ==> |id| > 0
  {
    forall id | id in kind ensures |id| > 0 {
      assert PubEntry(st, id);
    }
  }

  lemma KindIsListed(st: Proxy, p: App, scope: bool)
    requires p in st.hosts
    ensures PubsOfKind(st.pubIndex, st.hosts[p].pubs, scope) <= st.hosts[p].pubs
  {
  }

  lemma KindAt(st: Proxy, p: App, id: Id)
    requires p in st.hosts && id in st.hosts[p].pubs && id in st.pubIndex
    ensures id in PubsOfKind(st.pubIndex, st.hosts[p].pubs, true) <==> st.pubIndex[id].isScope
  {
  }

  lemma DeepestMore(news: seq<Forward>, m: Forward)
    requires DeepestFirst(news) && forall x :: x in news ==> |x.id| >= |m.id|
    ensures DeepestFirst(news + [m])
  {
  }

  lemma NotYetDropped(m: map<Id, Publication>, m': map<Id, Publication>, p: App, done: set<Id>, id: Id)
    requires DroppedPubs(m, m', p, done) && id !in done && id in m
    ensures id in m' && m'[id] == m[id]
    ensures SolePubs(m', p, {id}) == SolePubs(m, p, {id})
  {
  }

  lemma NewsMore(m: map<Id, Publication>, p: App, done: set<Id>, id: Id, news: seq<Forward>, more: seq<Forward>, scope: bool)
    requires Announced(news, Unpublish, scope, SolePubs(m, p, done)) && id in m && id !in done
    requires more == if id in SolePubs(m, p, {id}) then [Forward(Unpublish, scope, id)] else []
    ensures Announced(news + more, Unpublish, scope, SolePubs(m, p, done + {id}))
  {
    hide Announced;
    if id in SolePubs(m, p, {id}) {
      assert SolePubs(m, p, done + {id}) == SolePubs(m, p, done) + {id};
      AnnouncedMore(news, Unpublish, scope, SolePubs(m, p, done), id);
    } else {
      assert SolePubs(m, p, done + {id}) == SolePubs(m, p, done);
      assert news + more == news;
    }
  }

  /** Some of the subscriptions of p of one kind are gone, and the rendezvous node has been told. */
  ghost predicate DroppingSubs(st: Proxy, st': Proxy, p: App, scope: bool, done: set<Id>,
                               log: seq<Forward>, log': seq<Forward>, news: seq<Forward>) {
    && p in st.hosts && done <= st.hosts[p].subs
    && st'.pubIndex == st.pubIndex && st'.subIndex == DropSubs(st.subIndex, p, done) && st'.hosts == Unlisted(st, p, {}, done)
    && Announced(news, Unsubscribe, scope, SoleSubs(st.subIndex, p, done)) && log' == log + news
  }

  lemma DroppingNoSubs(st: Proxy, p: App, scope: bool, done: set<Id>, log: seq<Forward>)
    requires p in st.hosts && done == {}
    ensures DroppingSubs(st, st, p, scope, done, log, log, [])
  {
    UnlistedNone(st, p);
    assert DropSubs(st.subIndex, p, done) == st.subIndex;
    assert SoleSubs(st.subIndex, p, done) == {};
    AnnouncedNone(Unsubscribe, scope, SoleSubs(st.subIndex, p, done));
  }

  lemma DroppingSubsLooks(st: Proxy, st': Proxy, p: App, scope: bool, done: set<Id>, log: seq<Forward>, log': seq<Forward>, news: seq<Forward>, id: Id)
    requires DroppingSubs(st, st', p, scope, done, log, log', news)
    ensures p in st'.hosts && st'.hosts[p].subs == st.hosts[p].subs - done
    ensures id !in done && id in st'.subIndex ==> id in st.subIndex && st'.subIndex[id] == st.subIndex[id]
  {
  }

  lemma DroppingSubsTodo(st: Proxy, st': Proxy, p: App, scope: bool, done: set<Id>, log: seq<Forward>, log': seq<Forward>, news: seq<Forward>)
    requires DroppingSubs(st, st', p, scope, done, log, log', news)
    ensures p in st'.hosts && st'.hosts[p].subs == st.hosts[p].subs - done
  {
  }

  lemma SubKindStep(m: map<Id, Subscription>, s: set<Id>, todo: set<Id>, id: Id, scope: bool)
    requires todo <= s && id in todo && id in m
    ensures SubsOfKind(m, s - (todo - {id}), scope) == SubsOfKind(m, s - todo, scope) + if m[id].isScope == scope then {id} else {}
  {
    assert s - (todo - {id}) == s - todo + {id};
  }

  lemma NonemptySubKind(st: Proxy, p: App, kind: set<Id>)
    requires ProxyState.Inv(st) && p in st.hosts && kind == SubsOfKind(st.subIndex, st.hosts[p].subs, true)
    ensures forall id :: id in kind ==> |id| > 0
  {
  }

  lemma SubKindIsListed(st: Proxy, p: App, scope: bool)
    requires p in st.hosts
    ensures SubsOfKind(st.subIndex, st.hosts[p].subs, scope) <= st.hosts[p].subs
  {
  }

  lemma SubKindAt(st: Proxy, p: App, id: Id)
    requires p in st.hosts && id in st.hosts[p].subs && id in st.subIndex
    ensures id in SubsOfKind(st.subIndex, st.hosts[p].subs, true) <==> st.subIndex[id].isScope
  {
  }

  lemma DropSubsStep(m: map<Id, Subscription>, p: App, done: set<Id>, id: Id)
    requires id in m && id !in done
    ensures id in DropSubs(m, p, done) && DropSubs(m, p, done)[id] == m[id]
    ensures m[id].subscribers == {p} ==> DropSubs(m, p, done + {id}) == DropSubs(m, p, done) - {id}
    ensures m[id].subscribers != {p} ==>
      DropSubs(m, p, done + {id}) == DropSubs(m, p, done)[id := m[id].(subscribers := m[id].subscribers - {p})]
  {
    var m', d := DropSubs(m, p, done + {id}), DropSubs(m, p, done);
    if m[id].subscribers == {p} {
      assert m'.Keys == d.Keys - {id};
    } else {
      assert m'.Keys == d.Keys;
    }
  }

  lemma SubNewsMore(m: map<Id, Subscription>, p: App, done: set<Id>, id: Id, news: seq<Forward>, scope: bool)
    requires Announced(news, Unsubscribe, scope, SoleSubs(m, p, done)) && id in m && id !in done
    ensures m[id].subscribers == {p} && Forwarding(m[id].strategy) ==>
      Announced(news + [Forward(Unsubscribe, scope, id)], Unsubscribe, scope, SoleSubs(m, p, done + {id}))
    ensures !(m[id].subscribers == {p} && Forwarding(m[id].strategy)) ==> Announced(news, Unsubscribe, scope, SoleSubs(m, p, done + {id}))
  {
    hide Announced;
    if m[id].subscribers == {p} && Forwarding(m[id].strategy) {
      assert SoleSubs(m, p, done + {id}) == SoleSubs(m, p, done) + {id};
      AnnouncedMore(news, Unsubscribe, scope, SoleSubs(m, p, done), id);
    } else {
      assert SoleSubs(m, p, done + {id}) == SoleSubs(m, p, done);
    }
  }

  /** Dropping one subscription keeps the invariant and what the rendezvous node should know. */
  lemma OneSubDropped(st: Proxy, log: seq<Forward>, p: App, id: Id)
    requires ProxyState.Inv(st) && Told(st, log) && p in st.hosts && id in st.hosts[p].subs && id in st.subIndex && p in st.subIndex[id].subscribers
    ensures var sub := st.subIndex[id]; var left := sub.subscribers - {p};
      && (left == {} <==> sub.subscribers == {p})
      && var st' := st.(hosts := st.hosts[p := st.hosts[p].(subs := st.hosts[p].subs - {id})],
                        subIndex := if left == {} then st.subIndex - {id} else st.subIndex[id := sub.(subscribers := left)]);
         && ProxyState.Inv(st')
         && Told(st', if left == {} && Forwarding(sub.strategy) then log + [Forward(Unsubscribe, sub.isScope, id)] else log)
  {
    hide ProxyState.Inv, Told;
    var sub := st.subIndex[id];
    if sub.subscribers != {p} {
      LeftOver(sub.subscribers, p);
    }
    RemovedSubscription(st, log, p, id, sub.strategy, sub.isScope);
  }

  /** The clean-up messages, in order: items unpublished, items unsubscribed, scopes unpublished, scopes unsubscribed. */
  ghost predicate CleanedUp(st: Proxy, p: App, log: seq<Forward>, log': seq<Forward>)
    requires p in st.hosts
  {
    exists a, b, c, d {:trigger Cleanup(st, p, a, b, c, d)} :: Cleanup(st, p, a, b, c, d) && log' == log + a + b + c + d
  }

  ghost predicate Cleanup(st: Proxy, p: App, a: seq<Forward>, b: seq<Forward>, c: seq<Forward>, d: seq<Forward>)
    requires p in st.hosts
  {
    && Announced(a, Unpublish, false, SolePubs(st.pubIndex, p, PubsOfKind(st.pubIndex, st.hosts[p].pubs, false)))
    && Announced(b, Unsubscribe, false, SoleSubs(st.subIndex, p, SubsOfKind(st.subIndex, st.hosts[p].subs, false)))
    && Announced(c, Unpublish, true, SolePubs(st.pubIndex, p, PubsOfKind(st.pubIndex, st.hosts[p].pubs, true))) && DeepestFirst(c)
    && Announced(d, Unsubscribe, true, SoleSubs(st.subIndex, p, SubsOfKind(st.subIndex, st.hosts[p].subs, true))) && DeepestFirst(d)
  }

  /** The message takes back the last publication or subscription of its identifier, and calls it what that called it. */
  ghost predicate Undoes(log: seq<Forward>, m: Forward) {
    && (m.verb.Unpublish? || m.verb.Unsubscribe?)
    && (m.verb.Unpublish? ==> m.id in Replay(log, Publish, Unpublish) && m.scope == LastKind(log, Publish, m.id))
    && (m.verb.Unsubscribe? ==> m.id in Replay(log, Subscribe, Unsubscribe) && m.scope == LastKind(log, Subscribe, m.id))
  }

  lemma SameIndexesKinds(st: Proxy, st': Proxy)
    requires st'.pubIndex == st.pubIndex && st'.subIndex == st.subIndex
    ensures SameKinds(st, st')
  {
  }

  lemma DroppedKinds(st: Proxy, st': Proxy, p: App, pubs: set<Id>, subs: set<Id>)
    requires DroppedPubs(st.pubIndex, st'.pubIndex, p, pubs) && st'.subIndex == DropSubs(st.subIndex, p, subs)
    ensures SameKinds(st, st')
  {
    hide Started;
    forall id | id in st.pubIndex && id in st'.pubIndex
      ensures st'.pubIndex[id].isScope == st.pubIndex[id].isScope && st'.pubIndex[id].strategy == st.pubIndex[id].strategy
    {
      if id in pubs {
        assert DroppedAt(st.pubIndex, st'.pubIndex, p, id);
      }
    }
  }

  lemma UnpublishUndoes(st: Proxy, p: App, log: seq<Forward>, part: seq<Forward>, scope: bool)
    requires Told(st, log) && p in st.hosts
    requires Announced(part, Unpublish, scope, SolePubs(st.pubIndex, p, PubsOfKind(st.pubIndex, st.hosts[p].pubs, scope)))
    ensures forall m :: m in part ==> Undoes(log, m)
  {
    hide Tight, Replay, LastKind, ForwardedSubs;
    forall m | m in part ensures Undoes(log, m) {
      assert m.id in st.pubIndex.Keys;
    }
  }

  lemma UnsubscribeUndoes(st: Proxy, p: App, log: seq<Forward>, part: seq<Forward>, scope: bool)
    requires Told(st, log) && p in st.hosts
    requires Announced(part, Unsubscribe, scope, SoleSubs(st.subIndex, p, SubsOfKind(st.subIndex, st.hosts[p].subs, scope)))
    ensures forall m :: m in part ==> Undoes(log, m)
  {
    hide Tight, Replay, LastKind;
    forall m | m in part ensures Undoes(log, m) {
      assert m.id in ForwardedSubs(st);
    }
  }

  /** Whatever is sent to clean up after an application, the rendezvous node had been told the opposite, of the same kind. */
  lemma CleanUpUndoes(st: Proxy, p: App, log: seq<Forward>, log': seq<Forward>)
    requires Told(st, log) && p in st.hosts && CleanedUp(st, p, log, log')
    ensures log <= log' && forall k :: |log| <= k < |log'| ==> Undoes(log, log'[k])
  {
    hide Told, Undoes, Announced, DeepestFirst, SolePubs, SoleSubs, PubsOfKind, SubsOfKind;
    var a, b, c, d :| Cleanup(st, p, a, b, c, d) && log' == log + a + b + c + d;
    UnpublishUndoes(st, p, log, a, false);
    UnsubscribeUndoes(st, p, log, b, false);
    UnpublishUndoes(st, p, log, c, true);
    UnsubscribeUndoes(st, p, log, d, true);
    var news := a + b + c + d;
    assert log' == log + news;
    assert forall m :: m in news ==> m in a || m in b || m in c || m in d;
  }

  lemma AllGone(st: Proxy, st1: Proxy, st2: Proxy, st3: Proxy, st4: Proxy, p: App,
                log: seq<Forward>, log1: seq<Forward>, log2: seq<Forward>, log3: seq<Forward>, log4: seq<Forward>,
                a: seq<Forward>, b: seq<Forward>, c: seq<Forward>, d: seq<Forward>)
    requires ProxyState.Inv(st) && p in st.hosts && p in st1.hosts && p in st2.hosts && p in st3.hosts
    requires DroppingPubs(st, st1, p, false, PubsOfKind(st.pubIndex, st.hosts[p].pubs, false), log, log1, a)
    requires DroppingSubs(st1, st2, p, false, SubsOfKind(st1.subIndex, st1.hosts[p].subs, false), log1, log2, b)
    requires DroppingPubs(st2, st3, p, true, PubsOfKind(st2.pubIndex, st2.hosts[p].pubs, true), log2, log3, c) && DeepestFirst(c)
    requires DroppingSubs(st3, st4, p, true, SubsOfKind(st3.subIndex, st3.hosts[p].subs, true), log3, log4, d) && DeepestFirst(d)
    ensures DroppedPubs(st.pubIndex, st4.pubIndex, p, st.hosts[p].pubs) && st4.subIndex == DropSubs(st.subIndex, p, st.hosts[p].subs)
    ensures p in st4.hosts && st4.hosts[p] == Entry({}, {}) && st4.hosts - {p} == st.hosts - {p}
    ensures CleanedUp(st, p, log, log4)
  {
    hide ProxyState.Inv, DroppedPubs, DropSubs, Announced, DeepestFirst;
    var i, s := PubsOfKind(st.pubIndex, st.hosts[p].pubs, false), PubsOfKind(st.pubIndex, st.hosts[p].pubs, true);
    var j, t := SubsOfKind(st.subIndex, st.hosts[p].subs, false), SubsOfKind(st.subIndex, st.hosts[p].subs, true);
    BothKinds(st, p);
    assert st1.hosts[p].subs == st.hosts[p].subs - {} == st.hosts[p].subs;
    ScopesRemain(st.pubIndex, st1.pubIndex, p, st.hosts[p].pubs);
    assert st2.hosts[p].pubs == st.hosts[p].pubs - i - {} == st.hosts[p].pubs - i;
    DroppedMore(st.pubIndex, st1.pubIndex, st3.pubIndex, p, i, s);
    SubScopesRemain(st.subIndex, p, st.hosts[p].subs);
    assert st3.hosts[p].subs == st.hosts[p].subs - j - {} == st.hosts[p].subs - j;
    DropSubsTwice(st.subIndex, p, j, t);
    assert Cleanup(st, p, a, b, c, d);
    assert st4.hosts[p].pubs == {} && st4.hosts[p].subs == {};
    assert st4.hosts - {p} == st.hosts - {p};
  }

  lemma BothKinds(st: Proxy, p: App)
    requires ProxyState.Inv(st) && p in st.hosts
    ensures var i, s := PubsOfKind(st.pubIndex, st.hosts[p].pubs, false), PubsOfKind(st.pubIndex, st.hosts[p].pubs, true);
      i + s == st.hosts[p].pubs && i !! s
    ensures var j, t := SubsOfKind(st.subIndex, st.hosts[p].subs, false), SubsOfKind(st.subIndex, st.hosts[p].subs, true);
      j + t == st.hosts[p].subs && j !! t
  {
    hide ProxyState.Inv;
    forall id ensures id in st.hosts[p].pubs ==> id in st.pubIndex {
      StillThere(st, p, id);
    }
    forall id ensures id in st.hosts[p].subs ==> id in st.subIndex {
      StillThere(st, p, id);
    }
  }

  /** After the items have been dropped, what is left of p are its scopes, untouched. */
  lemma ScopesRemain(m: map<Id, Publication>, m': map<Id, Publication>, p: App, ids: set<Id>)
    requires DroppedPubs(m, m', p, PubsOfKind(m, ids, false))
    ensures PubsOfKind(m', ids - PubsOfKind(m, ids, false), true) == PubsOfKind(m, ids, true)
    ensures SolePubs(m', p, PubsOfKind(m, ids, true)) == SolePubs(m, p, PubsOfKind(m, ids, true))
  {
  }

  lemma SubScopesRemain(m: map<Id, Subscription>, p: App, ids: set<Id>)
    ensures SubsOfKind(DropSubs(m, p, SubsOfKind(m, ids, false)), ids - SubsOfKind(m, ids, false), true) == SubsOfKind(m, ids, true)
    ensures SoleSubs(DropSubs(m, p, SubsOfKind(m, ids, false)), p, SubsOfKind(m, ids, true)) == SoleSubs(m, p, SubsOfKind(m, ids, true))
  {
  }

  lemma DropSubsTwice(m: map<Id, Subscription>, p: App, j: set<Id>, t: set<Id>)
    requires j !! t
    ensures DropSubs(DropSubs(m, p, j), p, t) == DropSubs(m, p, j + t)
  {
    assert DropSubs(DropSubs(m, p, j), p, t).Keys == DropSubs(m, p, j + t).Keys;
  }

  /** An application with nothing left can be forgotten. */
  lemma EmptyHostLeaves(st: Proxy, p: App, log: seq<Forward>)
    requires ProxyState.Inv(st) && Told(st, log) && p in st.hosts && st.hosts[p] == Entry({}, {})
    ensures var st' := st.(hosts := st.hosts - {p});
      && ProxyState.Inv(st') && Told(st', log) && forall id :: !Publishes(st', p, id) && !Subscribes(st', p, id)
  {
    var st' := st.(hosts := st.hosts - {p});
    assert ForwardedSubs(st') == ForwardedSubs(st);
    forall q, x ensures Lists(st', q, true, x) <==> Publishes(st', q, x) {
      assert Lists(st, q, true, x) <==> Publishes(st, q, x);
    }
    forall q, x ensures Lists(st', q, false, x) <==> Subscribes(st', q, x) {
      assert Lists(st, q, false, x) <==> Subscribes(st, q, x);
    }
    forall x | x in st'.pubIndex ensures PubEntry(st', x) {
      assert PubEntry(st, x);
    }
    forall id ensures !Publishes(st', p, id) && !Subscribes(st', p, id) {
      assert Lists(st', p, true, id) <==> Publishes(st', p, id);
      assert Lists(st', p, false, id) <==> Subscribes(st', p, id);
    }
  }

  /** Cleaning up after an application that had nothing sends nothing. */
  lemma StrangerDoesNothing(st: Proxy, p: App, log: seq<Forward>, log': seq<Forward>)
    ensures p !in st.hosts ==> forall st1 {:trigger CleanedUp(st1, p, log, log')} ::
      st1 == st.(hosts := st.hosts[p := Entry({}, {})]) && CleanedUp(st1, p, log, log') ==> log' == log
    ensures forall m' :: DroppedPubs(st.pubIndex, m', p, {}) ==> m' == st.pubIndex
    ensures DropSubs(st.subIndex, p, {}) == st.subIndex
  {
    forall st1 {:trigger CleanedUp(st1, p, log, log')} |
      p !in st.hosts && st1 == st.(hosts := st.hosts[p := Entry({}, {})]) && CleanedUp(st1, p, log, log')
      ensures log' == log
    {
      var a, b, c, d :| Cleanup(st1, p, a, b, c, d) && log' == log + a + b + c + d;
      assert a == [] && b == [] && c == [] && d == [];
    }
  }
}
