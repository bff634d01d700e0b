/**
 What a node's local proxy remembers: which applications publish and subscribe to which identifiers,
 and which of these facts the rendezvous node has been told.
 */
module ProxyState {
  import opened RvGraph

  /** An application or a click element. */
  type App = nat

  /** The publishers of an identifier; true for one that has been told to start publishing. */
  datatype Publication = Publication(strategy: nat, isScope: bool, publishers: map<App, bool>, known: seq<Id>, fid: set<nat>)

  datatype Subscription = Subscription(strategy: nat, isScope: bool, subscribers: set<App>)

  datatype Entry = Entry(pubs: set<Id>, subs: set<Id>)

  datatype Proxy = Proxy(pubIndex: map<Id, Publication>, subIndex: map<Id, Subscription>, hosts: map<App, Entry>)

  datatype Verb = Publish | Unpublish | Subscribe | Unsubscribe

  /** A request forwarded to the rendezvous node on behalf of the whole machine. */
  datatype Forward = Forward(verb: Verb, scope: bool, id: Id)

  /** Subscriptions under the other strategies are recorded locally only. */
  predicate Forwarding(strategy: nat) {
    strategy != IMPLICIT_RENDEZVOUS && strategy != LINK_LOCAL && strategy != BROADCAST_IF
  }

  /** Of the five strategies two are made known beyond the machine. */
  lemma ForwardingIs(strategy: nat)
    requires strategy <= BROADCAST_IF
    ensures Forwarding(strategy) <==> strategy == NODE_LOCAL || strategy == DOMAIN_LOCAL
  {
  }

  /** The publishers that have been told to start. */
  function Started(ap: Publication): set<App> {
    set p | p in ap.publishers && ap.publishers[p]
  }

  ghost predicate AtMostOne(s: set<App>) {
    forall p, q :: p in s && q in s ==> p == q
  }

  // ---------- the invariant ----------

  ghost predicate PubEntry(st: Proxy, id: Id)
    requires id in st.pubIndex
  {
    && id != [] && st.pubIndex[id].publishers != map[]
    && (st.pubIndex[id].strategy == NODE_LOCAL || st.pubIndex[id].strategy == DOMAIN_LOCAL)
    && AtMostOne(Started(st.pubIndex[id]))
  }

  ghost predicate Publishes(st: Proxy, p: App, id: Id) {
    id in st.pubIndex && p in st.pubIndex[id].publishers
  }

  ghost predicate Subscribes(st: Proxy, p: App, id: Id) {
    id in st.subIndex && p in st.subIndex[id].subscribers
  }

  ghost predicate Lists(st: Proxy, p: App, pub: bool, id: Id) {
    p in st.hosts && id in if pub then st.hosts[p].pubs else st.hosts[p].subs
  }

  /** Nothing is kept for nobody, at most one publisher is started, and every application's sets mirror the indexes. */
  ghost predicate Inv(st: Proxy) {
    && (forall id {:trigger PubEntry(st, id)} :: id in st.pubIndex ==> PubEntry(st, id))
    && (forall id :: id in st.subIndex ==> id != [] && st.subIndex[id].subscribers != {})
    && (forall p, id :: Lists(st, p, true, id) <==> Publishes(st, p, id))
    && (forall p, id :: Lists(st, p, false, id) <==> Subscribes(st, p, id))
  }

  // ---------- what the rendezvous node has been told ----------

  /** The identifiers whose last forwarded (un)publish or (un)subscribe request was the positive one. */
  function Replay(log: seq<Forward>, yes: Verb, no: Verb): set<Id> {
    if log == [] then {}
    else
      var s := Replay(log[..|log| - 1], yes, no);
      var m := log[|log| - 1];
      if m.verb == yes then s + {m.id} else if m.verb == no then s - {m.id} else s
  }

  lemma ReplayMore(log: seq<Forward>, m: Forward, yes: Verb, no: Verb)
    ensures Replay(log + [m], yes, no) ==
      if m.verb == yes then Replay(log, yes, no) + {m.id} else if m.verb == no then Replay(log, yes, no) - {m.id} else Replay(log, yes, no)
  {
    assert (log + [m])[..|log|] == log;
  }

  /** Every message has told the rendezvous node something new. */
  ghost predicate Tight(log: seq<Forward>) {
    forall i {:trigger log[i]} :: 0 <= i < |log| ==>
      match log[i].verb
      case Publish => log[i].id !in Replay(log[..i], Publish, Unpublish)
      case Unpublish => log[i].id in Replay(log[..i], Publish, Unpublish)
      case Subscribe => log[i].id !in Replay(log[..i], Subscribe, Unsubscribe)
      case Unsubscribe => log[i].id in Replay(log[..i], Subscribe, Unsubscribe)
  }

  function ForwardedSubs(st: Proxy): set<Id> {
    set id | id in st.subIndex && Forwarding(st.subIndex[id].strategy)
  }

  /** Whether the last message of the verb about the identifier called it a scope. */
  function LastKind(log: seq<Forward>, verb: Verb, id: Id): bool {
    if log == [] then false
    else
      var m := log[|log| - 1];
      if m.verb == verb && m.id == id then m.scope else LastKind(log[..|log| - 1], verb, id)
  }

  lemma LastKindMore(log: seq<Forward>, m: Forward, verb: Verb, id: Id)
    ensures LastKind(log + [m], verb, id) == if m.verb == verb && m.id == id then m.scope else LastKind(log, verb, id)
  {
    assert (log + [m])[..|log|] == log;
  }

  /** That is the message at the last position where the verb is used for the identifier. */
  lemma {:induction false} LastKindIsLast(log: seq<Forward>, verb: Verb, id: Id, k: nat)
    requires k < |log| && log[k].verb == verb && log[k].id == id
    requires forall i :: k < i < |log| ==> log[i].verb != verb || log[i].id != id
    ensures LastKind(log, verb, id) == log[k].scope
  {
    if k < |log| - 1 {
      LastKindIsLast(log[..|log| - 1], verb, id, k);
    }
  }

  /** What the node was told was a scope, or an item, is recorded as one. */
  ghost predicate KindsTold(st: Proxy, log: seq<Forward>) {
    && (forall id :: id in st.pubIndex ==> st.pubIndex[id].isScope == LastKind(log, Publish, id))
    && (forall id :: id in st.subIndex && Forwarding(st.subIndex[id].strategy) ==> st.subIndex[id].isScope == LastKind(log, Subscribe, id))
  }

  /** The rendezvous node knows exactly the publications and the subscriptions it should, and their kinds. */
  ghost predicate Told(st: Proxy, log: seq<Forward>) {
    && Replay(log, Publish, Unpublish) == st.pubIndex.Keys
    && Replay(log, Subscribe, Unsubscribe) == ForwardedSubs(st)
    && Tight(log) && KindsTold(st, log)
  }

  /** What stays keeps its kind and its strategy. */
  ghost predicate SameKinds(st: Proxy, st': Proxy) {
    && (forall id :: id in st.pubIndex && id in st'.pubIndex ==>
          st'.pubIndex[id].isScope == st.pubIndex[id].isScope && st'.pubIndex[id].strategy == st.pubIndex[id].strategy)
    && (forall id :: id in st.subIndex && id in st'.subIndex ==>
          st'.subIndex[id].isScope == st.subIndex[id].isScope && st'.subIndex[id].strategy == st.subIndex[id].strategy)
  }

  lemma KindsMore(st: Proxy, st': Proxy, log: seq<Forward>, m: Forward)
    requires KindsTold(st, log) && SameKinds(st, st')
    requires forall id :: id in st'.pubIndex && id !in st.pubIndex ==> m == Forward(Publish, st'.pubIndex[id].isScope, id)
    requires forall id :: id in ForwardedSubs(st') && id !in ForwardedSubs(st) ==> m == Forward(Subscribe, st'.subIndex[id].isScope, id)
    requires m.verb.Publish? ==> m.id !in st.pubIndex
    requires m.verb.Subscribe? ==> m.id !in ForwardedSubs(st)
    ensures KindsTold(st', log + [m])
  {
    forall id ensures LastKind(log + [m], Publish, id) == if m.verb == Publish && m.id == id then m.scope else LastKind(log, Publish, id) {
      LastKindMore(log, m, Publish, id);
    }
    forall id ensures LastKind(log + [m], Subscribe, id) == if m.verb == Subscribe && m.id == id then m.scope else LastKind(log, Subscribe, id) {
      LastKindMore(log, m, Subscribe, id);
    }
  }

  lemma SameKindsTold(st: Proxy, st': Proxy, log: seq<Forward>)
    requires Told(st, log) && SameKinds(st, st') && st'.pubIndex.Keys == st.pubIndex.Keys && ForwardedSubs(st') == ForwardedSubs(st)
    ensures Told(st', log)
  {
    hide Replay, Tight, LastKind;
    forall id | id in st'.pubIndex ensures id in st.pubIndex {
      assert id in st'.pubIndex.Keys;
    }
    forall id | id in st'.subIndex && Forwarding(st'.subIndex[id].strategy) ensures id in st.subIndex {
      assert id in ForwardedSubs(st');
    }
  }

  lemma TightMore(log: seq<Forward>, m: Forward)
    requires Tight(log)
    requires match m.verb
             case Publish => m.id !in Replay(log, Publish, Unpublish)
             case Unpublish => m.id in Replay(log, Publish, Unpublish)
             case Subscribe => m.id !in Replay(log, Subscribe, Unsubscribe)
             case Unsubscribe => m.id in Replay(log, Subscribe, Unsubscribe)
    ensures Tight(log + [m])
  {
    var log' := log + [m];
    assert log'[..|log|] == log;
    forall i | 0 <= i < |log|
      ensures log'[i] == log[i] && log'[..i] == log[..i]
    {
    }
  }

  /** A message that matches the change of the indexes keeps the rendezvous node up to date. */
  lemma ToldMore(st: Proxy, st': Proxy, log: seq<Forward>, m: Forward)
    requires Told(st, log) && SameKinds(st, st')
    requires m.verb.Publish? ==> m.id in st'.pubIndex && st'.pubIndex[m.id].isScope == m.scope
    requires m.verb.Subscribe? ==> m.id in st'.subIndex && st'.subIndex[m.id].isScope == m.scope
    requires match m.verb
             case Publish => m.id !in st.pubIndex && st'.pubIndex.Keys == st.pubIndex.Keys + {m.id} && ForwardedSubs(st') == ForwardedSubs(st)
             case Unpublish => m.id in st.pubIndex && st'.pubIndex.Keys == st.pubIndex.Keys - {m.id} && ForwardedSubs(st') == ForwardedSubs(st)
             case Subscribe => m.id !in ForwardedSubs(st) && st'.pubIndex.Keys == st.pubIndex.Keys && ForwardedSubs(st') == ForwardedSubs(st) + {m.id}
             case Unsubscribe => m.id in ForwardedSubs(st) && st'.pubIndex.Keys == st.pubIndex.Keys && ForwardedSubs(st') == ForwardedSubs(st) - {m.id}
    ensures Told(st', log + [m])
  {
    hide Tight, ForwardedSubs, KindsTold, SameKinds;
    assert forall id :: id in st'.pubIndex.Keys && id !in st.pubIndex.Keys ==> id == m.id && m.verb.Publish?;
    KindsMore(st, st', log, m);
    ReplayMore(log, m, Publish, Unpublish);
    ReplayMore(log, m, Subscribe, Unsubscribe);
    assert m.id in st.pubIndex.Keys <==> m.id in st.pubIndex;
    TightMore(log, m);
  }

  /** What the rendezvous node is told is the union of what the applications do. */
  lemma NodeIsUnionOfApps(st: Proxy, log: seq<Forward>, id: Id)
    requires Inv(st) && Told(st, log)
    ensures id in Replay(log, Publish, Unpublish) <==> exists p :: Lists(st, p, true, id)
    ensures id in Replay(log, Subscribe, Unsubscribe) <==>
      exists p :: Lists(st, p, false, id) && Forwarding(st.subIndex[id].strategy)
  {
    hide Replay, Tight;
    if id in st.pubIndex {
      assert PubEntry(st, id);
      assert st.pubIndex[id].publishers.Keys != {};
      var p :| p in st.pubIndex[id].publishers;
      assert Publishes(st, p, id);
    }
    if id in st.subIndex {
      var p :| p in st.subIndex[id].subscribers;
      assert Subscribes(st, p, id);
      assert Lists(st, p, false, id);
    }
    assert forall p :: Lists(st, p, true, id) ==> Publishes(st, p, id);
    assert forall p :: Lists(st, p, false, id) ==> Subscribes(st, p, id);
  }

  // ---------- requests ----------

  datatype Reply = Reply(st: Proxy, forward: bool)

  function WithPub(st: Proxy, p: App, id: Id, ap: Publication): Proxy
    requires p in st.hosts
  {
    st.(pubIndex := st.pubIndex[id := ap.(publishers := if p in ap.publishers then ap.publishers else ap.publishers[p := false])],
        hosts := st.hosts[p := st.hosts[p].(pubs := st.hosts[p].pubs + {id})])
  }

  function StorePublication(st: Proxy, p: App, id: Id, strategy: nat, scope: bool): Reply
    requires p in st.hosts
  {
    if strategy != NODE_LOCAL && strategy != DOMAIN_LOCAL then Reply(st, false)
    else if id !in st.pubIndex then Reply(WithPub(st, p, id, Publication(strategy, scope, map[], [], {})), true)
    else if st.pubIndex[id].strategy == strategy then Reply(WithPub(st, p, id, st.pubIndex[id]), false)
    else Reply(st, false)
  }

  function WithoutPub(st: Proxy, p: App, id: Id): Proxy
    requires p in st.hosts && id in st.pubIndex
  {
    var left := st.pubIndex[id].publishers - {p};
    st.(pubIndex := if left == map[] then st.pubIndex - {id} else st.pubIndex[id := st.pubIndex[id].(publishers := left)],
        hosts := st.hosts[p := st.hosts[p].(pubs := st.hosts[p].pubs - {id})])
  }

  function RemovePublication(st: Proxy, p: App, id: Id, strategy: nat): Reply
    requires p in st.hosts
  {
    if (strategy != NODE_LOCAL && strategy != DOMAIN_LOCAL) || id !in st.pubIndex || st.pubIndex[id].strategy != strategy then Reply(st, false)
    else Reply(WithoutPub(st, p, id), id !in WithoutPub(st, p, id).pubIndex)
  }

  function WithSub(st: Proxy, p: App, id: Id, sub: Subscription): Proxy
    requires p in st.hosts
  {
    st.(subIndex := st.subIndex[id := sub.(subscribers := sub.subscribers + {p})],
        hosts := st.hosts[p := st.hosts[p].(subs := st.hosts[p].subs + {id})])
  }

  function StoreSubscription(st: Proxy, p: App, id: Id, strategy: nat, scope: bool): Reply
    requires p in st.hosts
  {
    if id !in st.subIndex then Reply(WithSub(st, p, id, Subscription(strategy, scope, {})), Forwarding(strategy))
    else if st.subIndex[id].strategy == strategy then Reply(WithSub(st, p, id, st.subIndex[id]), false)
    else Reply(st, false)
  }

  function WithoutSub(st: Proxy, p: App, id: Id): Proxy
    requires p in st.hosts && id in st.subIndex
  {
    var left := st.subIndex[id].subscribers - {p};
    st.(subIndex := if left == {} then st.subIndex - {id} else st.subIndex[id := st.subIndex[id].(subscribers := left)],
        hosts := st.hosts[p := st.hosts[p].(subs := st.hosts[p].subs - {id})])
  }

  function RemoveSubscription(st: Proxy, p: App, id: Id, strategy: nat): Reply
    requires p in st.hosts
  {
    if id !in st.subIndex || st.subIndex[id].strategy != strategy then Reply(st, false)
    else Reply(WithoutSub(st, p, id), id !in WithoutSub(st, p, id).subIndex && Forwarding(strategy))
  }

  /** The request has kept the invariant, and the rendezvous node is told if and only if it must be. */
  ghost predicate Served(st: Proxy, r: Reply, log: seq<Forward>, m: Forward) {
    && Inv(r.st) && Told(r.st, if r.forward then log + [m] else log)
    && (r.forward <==> r.st.pubIndex.Keys != st.pubIndex.Keys || ForwardedSubs(r.st) != ForwardedSubs(st))
  }

  /** Other identifiers are as before; what is recorded for id keeps all but who publishes or subscribes, and whoever
      publishes it anew has not been started. */
  ghost predicate KeepsEntries(st: Proxy, st': Proxy, id: Id) {
    && (forall x :: x != id && x in st.pubIndex ==> x in st'.pubIndex && st'.pubIndex[x] == st.pubIndex[x])
    && (forall x :: x != id && x in st.subIndex ==> x in st'.subIndex && st'.subIndex[x] == st.subIndex[x])
    && (forall x :: x != id && x in st'.pubIndex ==> x in st.pubIndex)
    && (forall x :: x != id && x in st'.subIndex ==> x in st.subIndex)
    && (id in st.pubIndex && id in st'.pubIndex ==>
          var ap, ap' := st.pubIndex[id], st'.pubIndex[id];
          && ap'.strategy == ap.strategy && ap'.isScope == ap.isScope && ap'.known == ap.known && ap'.fid == ap.fid
          && forall q :: q in ap'.publishers ==> ap'.publishers[q] == (q in ap.publishers && ap.publishers[q]))
    && (id in st.subIndex && id in st'.subIndex ==>
          st'.subIndex[id].strategy == st.subIndex[id].strategy && st'.subIndex[id].isScope == st.subIndex[id].isScope)
  }

  predicate Accepts(st: Proxy, id: Id, strategy: nat) {
    (strategy == NODE_LOCAL || strategy == DOMAIN_LOCAL) && (id in st.pubIndex ==> st.pubIndex[id].strategy == strategy)
  }

  /** A new publication is of the requested kind and strategy, by p alone, which has not been started. */
  lemma StoredPublicationIs(st: Proxy, p: App, id: Id, strategy: nat, scope: bool)
    requires p in st.hosts
    ensures KeepsEntries(st, StorePublication(st, p, id, strategy, scope).st, id)
    ensures id !in st.pubIndex && id in StorePublication(st, p, id, strategy, scope).st.pubIndex ==>
      StorePublication(st, p, id, strategy, scope).st.pubIndex[id] == Publication(strategy, scope, map[p := false], [], {})
  {
  }

  lemma RemovedPublicationIs(st: Proxy, p: App, id: Id, strategy: nat)
    requires p in st.hosts
    ensures KeepsEntries(st, RemovePublication(st, p, id, strategy).st, id)
  {
  }

  lemma StoredSubscriptionIs(st: Proxy, p: App, id: Id, strategy: nat, scope: bool)
    requires p in st.hosts
    ensures KeepsEntries(st, StoreSubscription(st, p, id, strategy, scope).st, id)
    ensures id !in st.subIndex ==>
      && id in StoreSubscription(st, p, id, strategy, scope).st.subIndex
      && StoreSubscription(st, p, id, strategy, scope).st.subIndex[id] == Subscription(strategy, scope, {p})
  {
    assert {} + {p} == {p};
  }

  lemma RemovedSubscriptionIs(st: Proxy, p: App, id: Id, strategy: nat)
    requires p in st.hosts
    ensures KeepsEntries(st, RemoveSubscription(st, p, id, strategy).st, id)
    ensures id in RemoveSubscription(st, p, id, strategy).st.subIndex ==> id in st.subIndex
  {
  }

  /** When the rendezvous node is told: of a first publication or a last unpublication under the two strategies that have
      any, of a first subscription or a last unsubscription under all but the three local ones. */
  lemma ForwardsIf(st: Proxy, p: App, id: Id, strategy: nat, scope: bool)
    requires p in st.hosts
    ensures StorePublication(st, p, id, strategy, scope).forward <==> id !in st.pubIndex && (strategy == NODE_LOCAL || strategy == DOMAIN_LOCAL)
    ensures RemovePublication(st, p, id, strategy).forward <==> id in st.pubIndex && id !in RemovePublication(st, p, id, strategy).st.pubIndex
    ensures StoreSubscription(st, p, id, strategy, scope).forward <==>
      id !in st.subIndex && strategy != LINK_LOCAL && strategy != IMPLICIT_RENDEZVOUS && strategy != BROADCAST_IF
    ensures RemoveSubscription(st, p, id, strategy).forward <==>
      && id in st.subIndex && id !in RemoveSubscription(st, p, id, strategy).st.subIndex
      && strategy != LINK_LOCAL && strategy != IMPLICIT_RENDEZVOUS && strategy != BROADCAST_IF
  {
  }

  lemma StoredPublication(st: Proxy, log: seq<Forward>, p: App, id: Id, strategy: nat, scope: bool)
    requires Inv(st) && Told(st, log) && p in st.hosts && id != []
    ensures Served(st, StorePublication(st, p, id, strategy, scope), log, Forward(Publish, scope, id))
    ensures forall q, x :: Publishes(StorePublication(st, p, id, strategy, scope).st, q, x) <==>
      Publishes(st, q, x) || (q == p && x == id && Accepts(st, id, strategy))
    ensures KeepsEntries(st, StorePublication(st, p, id, strategy, scope).st, id)
    ensures id !in st.pubIndex && id in StorePublication(st, p, id, strategy, scope).st.pubIndex ==>
      StorePublication(st, p, id, strategy, scope).st.pubIndex[id] == Publication(strategy, scope, map[p := false], [], {})
  {
    hide Tight, Replay, Started, KeepsEntries;
    StoredPublicationIs(st, p, id, strategy, scope);
    var r := StorePublication(st, p, id, strategy, scope);
    if Accepts(st, id, strategy) {
      var ap := if id in st.pubIndex then st.pubIndex[id] else Publication(strategy, scope, map[], [], {});
      assert r.st == WithPub(st, p, id, ap);
      StoredEntry(st, p, id, ap);
      assert ForwardedSubs(r.st) == ForwardedSubs(st);
      if r.forward {
        assert r.st.pubIndex.Keys == st.pubIndex.Keys + {id};
        ToldMore(st, r.st, log, Forward(Publish, scope, id));
      } else {
        assert r.st.pubIndex.Keys == st.pubIndex.Keys;
      }
    }
  }

  lemma StoredEntry(st: Proxy, p: App, id: Id, ap: Publication)
    requires Inv(st) && p in st.hosts && id != []
    requires if id in st.pubIndex then ap == st.pubIndex[id]
             else ap.publishers == map[] && (ap.strategy == NODE_LOCAL || ap.strategy == DOMAIN_LOCAL)
    ensures Inv(WithPub(st, p, id, ap))
    ensures forall q, x :: Publishes(WithPub(st, p, id, ap), q, x) <==> Publishes(st, q, x) || (q == p && x == id)
  {
    var st' := WithPub(st, p, id, ap);
    forall q, x ensures Publishes(st', q, x) <==> Publishes(st, q, x) || (q == p && x == id) {
    }
    forall q, x ensures Lists(st', q, true, x) <==> Publishes(st', q, x) {
      assert Lists(st, q, true, x) <==> Publishes(st, q, x);
    }
    forall q, x ensures Lists(st', q, false, x) <==> Subscribes(st', q, x) {
      assert Lists(st, q, false, x) <==> Subscribes(st, q, x);
    }
    forall x | x in st'.pubIndex ensures PubEntry(st', x) {
      if x in st.pubIndex {
        assert PubEntry(st, x);
        assert Started(st'.pubIndex[x]) <= Started(st.pubIndex[x]);
      } else {
        assert Started(st'.pubIndex[x]) == {};
      }
      assert p in st'.pubIndex[id].publishers;
    }
  }

  lemma RemovedPublication(st: Proxy, log: seq<Forward>, p: App, id: Id, strategy: nat, scope: bool)
    requires Inv(st) && Told(st, log) && p in st.hosts
    ensures Served(st, RemovePublication(st, p, id, strategy), log, Forward(Unpublish, scope, id))
    ensures forall q, x :: Publishes(RemovePublication(st, p, id, strategy).st, q, x) <==>
      Publishes(st, q, x) && !(q == p && x == id && Accepts(st, id, strategy))
    ensures var st' := RemovePublication(st, p, id, strategy).st;
      forall x :: x in st'.pubIndex ==>
        x in st.pubIndex && Started(st'.pubIndex[x]) == Started(st.pubIndex[x]) - if x == id && Accepts(st, id, strategy) then {p} else {}
    ensures KeepsEntries(st, RemovePublication(st, p, id, strategy).st, id)
  {
    hide Tight, Replay, Started, KeepsEntries;
    RemovedPublicationIs(st, p, id, strategy);
    var r := RemovePublication(st, p, id, strategy);
    if Accepts(st, id, strategy) && id in st.pubIndex {
      RemovedEntry(st, p, id);
      assert ForwardedSubs(r.st) == ForwardedSubs(st);
      if r.forward {
        assert r.st.pubIndex.Keys == st.pubIndex.Keys - {id};
        ToldMore(st, r.st, log, Forward(Unpublish, scope, id));
      } else {
        assert r.st.pubIndex.Keys == st.pubIndex.Keys;
      }
    }
    RemovedStarted(st, p, id, strategy);
  }

  lemma RemovedStarted(st: Proxy, p: App, id: Id, strategy: nat)
    requires p in st.hosts
    ensures var st' := RemovePublication(st, p, id, strategy).st;
      forall x :: x in st'.pubIndex ==>
        x in st.pubIndex && Started(st'.pubIndex[x]) == Started(st.pubIndex[x]) - if x == id && Accepts(st, id, strategy) then {p} else {}
  {
  }

  lemma RemovedEntry(st: Proxy, p: App, id: Id)
    requires Inv(st) && p in st.hosts && id in st.pubIndex
    ensures Inv(WithoutPub(st, p, id))
    ensures forall q, x :: Publishes(WithoutPub(st, p, id), q, x) <==> Publishes(st, q, x) && !(q == p && x == id)
  {
    var st' := WithoutPub(st, p, id);
    assert forall q :: q in st.pubIndex[id].publishers && q != p ==> q in st.pubIndex[id].publishers - {p};
    forall q, x ensures Publishes(st', q, x) <==> Publishes(st, q, x) && !(q == p && x == id) {
    }
    forall q, x ensures Lists(st', q, true, x) <==> Publishes(st', q, x) {
      assert Lists(st, q, true, x) <==> Publishes(st, q, x);
    }
    forall q, x ensures Lists(st', q, false, x) <==> Subscribes(st', q, x) {
      assert Lists(st, q, false, x) <==> Subscribes(st, q, x);
    }
    forall x | x in st'.pubIndex ensures PubEntry(st', x) {
      assert PubEntry(st, x);
      assert Started(st'.pubIndex[x]) <= Started(st.pubIndex[x]);
    }
  }

  /** Unlike a disconnect, an unpublish hands over to nobody: with publishers left, nobody is started afterwards exactly
      if nobody was before, or p itself. */
  lemma UnpublishStarted(st: Proxy, p: App, id: Id, strategy: nat)
    requires Inv(st) && p in st.hosts && id in st.pubIndex && Accepts(st, id, strategy)
    requires id in RemovePublication(st, p, id, strategy).st.pubIndex
    ensures var before, after := st.pubIndex[id], RemovePublication(st, p, id, strategy).st.pubIndex[id];
      && after.publishers.Keys == before.publishers.Keys - {p} && after.publishers.Keys != {}
      && Started(after) == Started(before) - {p}
      && (Started(after) == {} <==> Started(before) == {} || p in Started(before))
  {
    assert PubEntry(st, id);
    var before, after := st.pubIndex[id], RemovePublication(st, p, id, strategy).st.pubIndex[id];
    assert after.publishers.Keys == before.publishers.Keys - {p};
    assert Started(after) == Started(before) - {p};
    if p !in Started(before) {
      assert Started(before) - {p} == Started(before);
    }
  }

  lemma StoredSubscription(st: Proxy, log: seq<Forward>, p: App, id: Id, strategy: nat, scope: bool)
    requires Inv(st) && Told(st, log) && p in st.hosts && id != []
    ensures Served(st, StoreSubscription(st, p, id, strategy, scope), log, Forward(Subscribe, scope, id))
    ensures forall q, x :: Subscribes(StoreSubscription(st, p, id, strategy, scope).st, q, x) <==>
      Subscribes(st, q, x) || (q == p && x == id && (id in st.subIndex ==> st.subIndex[id].strategy == strategy))
    ensures KeepsEntries(st, StoreSubscription(st, p, id, strategy, scope).st, id)
    ensures id !in st.subIndex ==>
      && id in StoreSubscription(st, p, id, strategy, scope).st.subIndex
      && StoreSubscription(st, p, id, strategy, scope).st.subIndex[id] == Subscription(strategy, scope, {p})
  {
    hide Tight, Replay, Started, KeepsEntries;
    StoredSubscriptionIs(st, p, id, strategy, scope);
    var r := StoreSubscription(st, p, id, strategy, scope);
    if id in st.subIndex ==> st.subIndex[id].strategy == strategy {
      var sub := if id in st.subIndex then st.subIndex[id] else Subscription(strategy, scope, {});
      StoredSub(st, p, id, sub);
      if r.forward {
        assert ForwardedSubs(r.st) == ForwardedSubs(st) + {id};
        ToldMore(st, r.st, log, Forward(Subscribe, scope, id));
      } else {
        assert ForwardedSubs(r.st) == ForwardedSubs(st);
      }
    }
  }

  lemma StoredSub(st: Proxy, p: App, id: Id, sub: Subscription)
    requires Inv(st) && p in st.hosts && id != []
    requires if id in st.subIndex then sub == st.subIndex[id] else sub.subscribers == {}
    ensures Inv(WithSub(st, p, id, sub))
    ensures forall q, x :: Subscribes(WithSub(st, p, id, sub), q, x) <==> Subscribes(st, q, x) || (q == p && x == id)
  {
    var st' := WithSub(st, p, id, sub);
    forall q, x ensures Subscribes(st', q, x) <==> Subscribes(st, q, x) || (q == p && x == id) {
    }
    forall q, x ensures Lists(st', q, true, x) <==> Publishes(st', q, x) {
      assert Lists(st, q, true, x) <==> Publishes(st, q, x);
    }
    forall q, x ensures Lists(st', q, false, x) <==> Subscribes(st', q, x) {
      assert Lists(st, q, false, x) <==> Subscribes(st, q, x);
    }
    forall x | x in st'.pubIndex ensures PubEntry(st', x) {
      assert PubEntry(st, x);
    }
    assert p in st'.subIndex[id].subscribers;
  }

  lemma RemovedSubscription(st: Proxy, log: seq<Forward>, p: App, id: Id, strategy: nat, scope: bool)
    requires Inv(st) && Told(st, log) && p in st.hosts
    ensures Served(st, RemoveSubscription(st, p, id, strategy), log, Forward(Unsubscribe, scope, id))
    ensures forall q, x :: Subscribes(RemoveSubscription(st, p, id, strategy).st, q, x) <==>
      Subscribes(st, q, x) && !(q == p && x == id && st.subIndex[id].strategy == strategy)
    ensures KeepsEntries(st, RemoveSubscription(st, p, id, strategy).st, id)
    ensures id in RemoveSubscription(st, p, id, strategy).st.subIndex ==> id in st.subIndex
  {
    hide Tight, Replay, Started, KeepsEntries;
    RemovedSubscriptionIs(st, p, id, strategy);
    var r := RemoveSubscription(st, p, id, strategy);
    if id in st.subIndex && st.subIndex[id].strategy == strategy {
      RemovedSub(st, p, id);
      if r.forward {
        assert ForwardedSubs(r.st) == ForwardedSubs(st) - {id};
        ToldMore(st, r.st, log, Forward(Unsubscribe, scope, id));
      } else {
        assert ForwardedSubs(r.st) == ForwardedSubs(st);
      }
    }
  }

  lemma RemovedSub(st: Proxy, p: App, id: Id)
    requires Inv(st) && p in st.hosts && id in st.subIndex
    ensures Inv(WithoutSub(st, p, id))
    ensures forall q, x :: Subscribes(WithoutSub(st, p, id), q, x) <==> Subscribes(st, q, x) && !(q == p && x == id)
  {
    var st' := WithoutSub(st, p, id);
    assert forall q :: q in st.subIndex[id].subscribers && q != p ==> q in st.subIndex[id].subscribers - {p};
    forall q, x ensures Subscribes(st', q, x) <==> Subscribes(st, q, x) && !(q == p && x == id) {
    }
    forall q, x ensures Lists(st', q, true, x) <==> Publishes(st', q, x) {
      assert Lists(st, q, true, x) <==> Publishes(st, q, x);
    }
    forall q, x ensures Lists(st', q, false, x) <==> Subscribes(st', q, x) {
      assert Lists(st, q, false, x) <==> Subscribes(st, q, x);
    }
    forall x | x in st'.pubIndex ensures PubEntry(st', x) {
      assert PubEntry(st, x);
    }
  }

  // ---------- an application disconnects ----------

  /** p no longer publishes; a started item is handed to one of the remaining publishers. */
  ghost predicate Handed(ap: Publication, ap': Publication, p: App) {
    && ap' == ap.(publishers := ap'.publishers) && ap'.publishers.Keys == ap.publishers.Keys - {p}
    && if !ap.isScope && p in Started(ap) then exists q :: Started(ap') == {q} else Started(ap') == Started(ap) - {p}
  }

  ghost predicate DroppedAt(m: map<Id, Publication>, m': map<Id, Publication>, p: App, id: Id)
    requires id in m
  {
    if m[id].publishers.Keys == {p} then id !in m' else id in m' && Handed(m[id], m'[id], p)
  }

  /** p no longer publishes any of the identifiers in s; nothing else has changed. */
  ghost predicate DroppedPubs(m: map<Id, Publication>, m': map<Id, Publication>, p: App, s: set<Id>) {
    && (forall id {:trigger DroppedAt(m, m', p, id)} :: id in m && id in s ==> DroppedAt(m, m', p, id))
    && (forall id :: id in m && id !in s ==> id in m' && m'[id] == m[id])
    && (forall id :: id in m' ==> id in m)
  }

  function DropSubs(m: map<Id, Subscription>, p: App, s: set<Id>): map<Id, Subscription> {
    map id | id in m && !(id in s && m[id].subscribers == {p}) ::
      if id in s then m[id].(subscribers := m[id].subscribers - {p}) else m[id]
  }

  function Unlisted(st: Proxy, p: App, pubs: set<Id>, subs: set<Id>): map<App, Entry>
    requires p in st.hosts
  {
    st.hosts[p := Entry(st.hosts[p].pubs - pubs, st.hosts[p].subs - subs)]
  }

  lemma DroppedNone(m: map<Id, Publication>, p: App)
    ensures DroppedPubs(m, m, p, {})
  {
  }

  lemma DroppedMore(m: map<Id, Publication>, m1: map<Id, Publication>, m2: map<Id, Publication>, p: App, s: set<Id>, s2: set<Id>)
    requires DroppedPubs(m, m1, p, s) && DroppedPubs(m1, m2, p, s2) && s !! s2
    ensures DroppedPubs(m, m2, p, s + s2)
  {
    hide Handed;
    forall id | id in m && id in s + s2 ensures DroppedAt(m, m2, p, id) {
      if id in s {
        assert DroppedAt(m, m1, p, id);
      } else {
        assert DroppedAt(m1, m2, p, id);
      }
    }
  }

  lemma DroppedPubsKeepInv(st: Proxy, st': Proxy, p: App, s: set<Id>)
    requires Inv(st) && p in st.hosts && s <= st.hosts[p].pubs && DroppedPubs(st.pubIndex, st'.pubIndex, p, s)
    requires st'.subIndex == st.subIndex && st'.hosts == Unlisted(st, p, s, {})
    ensures Inv(st')
  {
    forall id | id in s ensures Publishes(st, p, id) {
      assert Lists(st, p, true, id);
    }
    forall q, x ensures Publishes(st', q, x) <==> Publishes(st, q, x) && !(q == p && x in s) {
      if x in st.pubIndex && x in s {
        assert DroppedAt(st.pubIndex, st'.pubIndex, p, x);
        assert q in st.pubIndex[x].publishers.Keys - {p} <==> q in st.pubIndex[x].publishers && q != p;
      }
    }
    forall q, x ensures Lists(st', q, true, x) <==> Publishes(st', q, x) {
      assert Lists(st, q, true, x) <==> Publishes(st, q, x);
    }
    forall q, x ensures Lists(st', q, false, x) <==> Subscribes(st', q, x) {
      assert Lists(st, q, false, x) <==> Subscribes(st, q, x);
    }
    forall x | x in st'.pubIndex ensures PubEntry(st', x) {
      assert PubEntry(st, x);
      if x in s {
        assert DroppedAt(st.pubIndex, st'.pubIndex, p, x);
        LeftOver(st.pubIndex[x].publishers.Keys, p);
      }
    }
  }

  lemma LeftOver(s: set<App>, p: App)
    requires p in s && s != {p}
    ensures s - {p} != {}
  {
    assert s == s - {p} + {p};
  }

  /** Handing over keeps the number of started publishers of an item with others left. */
  lemma HandedStillStarted(ap: Publication, ap': Publication, p: App)
    requires Handed(ap, ap', p) && !ap.isScope && AtMostOne(Started(ap))
    ensures |Started(ap')| == |Started(ap)|
  {
    if p in Started(ap) {
      assert Started(ap) == {p};
      var q :| Started(ap') == {q};
    } else {
      assert Started(ap) - {p} == Started(ap);
    }
  }

  /** The log lists one message of the kind for every identifier. */
  ghost predicate Announced(log: seq<Forward>, verb: Verb, scope: bool, ids: set<Id>) {
    && |log| == |ids|
    && (forall m :: m in log ==> m == Forward(verb, scope, m.id) && m.id in ids)
    && (forall id :: id in ids ==> Forward(verb, scope, id) in log)
  }

  ghost predicate DeepestFirst(log: seq<Forward>) {
    forall i, j :: 0 <= i < j < |log| ==> |log[i].id| >= |log[j].id|
  }

  lemma AnnouncedMore(log: seq<Forward>, verb: Verb, scope: bool, ids: set<Id>, id: Id)
    requires Announced(log, verb, scope, ids) && id !in ids
    ensures Announced(log + [Forward(verb, scope, id)], verb, scope, ids + {id})
  {
  }

  /** The identifiers in s nobody but p publishes. */
  ghost function SolePubs(m: map<Id, Publication>, p: App, s: set<Id>): set<Id> {
    set id | id in s && id in m && m[id].publishers.Keys == {p}
  }

  ghost function SoleSubs(m: map<Id, Subscription>, p: App, s: set<Id>): set<Id> {
    set id | id in s && id in m && m[id].subscribers == {p} && Forwarding(m[id].strategy)
  }

  /** The kinds among s. */
  ghost function PubsOfKind(m: map<Id, Publication>, s: set<Id>, scope: bool): set<Id> {
    set id | id in s && id in m && m[id].isScope == scope
  }

  ghost function SubsOfKind(m: map<Id, Subscription>, s: set<Id>, scope: bool): set<Id> {
    set id | id in s && id in m && m[id].isScope == scope
  }
}
