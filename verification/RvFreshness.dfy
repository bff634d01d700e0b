/**
 Rendezvous: the messages the node sends about an information item, and when the last of them still
 says what is true now.
 */
module RvFreshness {
  import opened RvGraph
  import opened RvPropagation
  import opened RvHosts

  datatype Message =
    | Match(item: Ref, pubs: set<Host>, subs: set<Host>, ids: set<Id>)
    | StartLocal(item: Ref, ids: set<Id>)
    | StopLocal(item: Ref, ids: set<Id>)
    | ScopeNotice(published: bool, ids: set<Id>, strategy: nat, subs: set<Host>)

  /** All hosts entered for the node in the role, under whatever identifier. */
  function MembersOf(n: Node, role: Role): set<Host> {
    set id, h | id in n.ids && h in Members(n.ids[id], role) :: h
  }

  /** The subscribers of an item: its own and those of all its direct fathers. */
  function Audience(st: Rv, i: Ref): set<Host>
    requires i in st.nodes
  {
    MembersOf(st.nodes[i], Subscriber)
    + set f, h | f in st.nodes[i].fathers && f in st.nodes && h in MembersOf(st.nodes[f], Subscriber) :: h
  }

  /** What is sent about item i when its subscribers are subs; nothing without a publisher. */
  function Announce(st: Rv, i: Ref, subs: set<Host>): seq<Message>
    requires i in st.nodes
  {
    var pubs := MembersOf(st.nodes[i], Publisher);
    if pubs == {} then []
    else if st.nodes[i].strategy == NODE_LOCAL then
      [if subs != {} then StartLocal(i, st.nodes[i].ids.Keys) else StopLocal(i, st.nodes[i].ids.Keys)]
    else if st.nodes[i].strategy == DOMAIN_LOCAL then [Match(i, pubs, subs, st.nodes[i].ids.Keys)]
    else []
  }

  predicate About(m: Message, i: Ref) {
    !m.ScopeNotice? && m.item == i
  }

  /** The position of the last message about i, or |sent|. */
  ghost function LastAbout(sent: seq<Message>, i: Ref): (k: nat)
    ensures k <= |sent| && (k < |sent| ==> About(sent[k], i))
  {
    if sent == [] then 0
    else if About(sent[|sent| - 1], i) then |sent| - 1
    else
      var k := LastAbout(sent[..|sent| - 1], i);
      if k == |sent| - 1 then |sent| else k
  }

  ghost predicate Needs(st: Rv, i: Ref) {
    && i in st.nodes && st.nodes[i].Item? && MembersOf(st.nodes[i], Publisher) != {}
    && (st.nodes[i].strategy == NODE_LOCAL || st.nodes[i].strategy == DOMAIN_LOCAL)
  }

  /** The message states the publishers and subscribers the item has now. */
  ghost predicate Current(st: Rv, i: Ref, m: Message)
    requires i in st.nodes
  {
    if st.nodes[i].strategy == NODE_LOCAL then (if Audience(st, i) != {} then m.StartLocal? else m.StopLocal?)
    else m.Match? && m.pubs == MembersOf(st.nodes[i], Publisher) && m.subs == Audience(st, i)
  }

  ghost predicate FreshItem(st: Rv, sent: seq<Message>, i: Ref)
    requires i in st.nodes
  {
    LastAbout(sent, i) < |sent| && Current(st, i, sent[LastAbout(sent, i)])
  }

  /** Every item with publishers, except those listed, had its last message sent with what holds now. */
  ghost predicate Fresh(st: Rv, sent: seq<Message>, except: set<Ref>) {
    forall i :: Needs(st, i) && i !in except ==> FreshItem(st, sent, i)
  }

  lemma LastAboutAppend(sent: seq<Message>, m: Message, i: Ref)
    ensures About(m, i) ==> LastAbout(sent + [m], i) == |sent|
    ensures !About(m, i) && LastAbout(sent, i) < |sent| ==> LastAbout(sent + [m], i) == LastAbout(sent, i)
  {
    assert (sent + [m])[..|sent|] == sent;
  }

  /** LastAbout is the last position at which the item is mentioned. */
  lemma {:induction false} LastAboutIsLast(sent: seq<Message>, i: Ref)
    ensures forall j :: 0 <= j < |sent| && (LastAbout(sent, i) == |sent| || j > LastAbout(sent, i)) ==> !About(sent[j], i)
  {
    if sent != [] {
      var front := sent[..|sent| - 1];
      LastAboutIsLast(front, i);
      assert forall j :: 0 <= j < |front| ==> front[j] == sent[j];
    }
  }

  /** In a fresh state the last message about a published item was sent, and states its publishers and its audience. */
  lemma LastMessageIsCurrent(st: Rv, sent: seq<Message>, except: set<Ref>, i: Ref) returns (k: nat)
    requires Fresh(st, sent, except) && Needs(st, i) && i !in except
    ensures k < |sent| && About(sent[k], i) && forall j :: k < j < |sent| ==> !About(sent[j], i)
    ensures st.nodes[i].strategy == DOMAIN_LOCAL ==>
      sent[k].Match? && sent[k].pubs == MembersOf(st.nodes[i], Publisher) && sent[k].subs == Audience(st, i)
    ensures st.nodes[i].strategy == NODE_LOCAL ==> sent[k].StartLocal? == (Audience(st, i) != {})
  {
    hide MembersOf, Audience;
    LastAboutIsLast(sent, i);
    k := LastAbout(sent, i);
    assert FreshItem(st, sent, i);
  }

  /** Announcing an item with its current subscribers makes it fresh and disturbs no other. */
  lemma AnnounceRefreshes(st: Rv, sent: seq<Message>, except: set<Ref>, i: Ref)
    requires i in st.nodes && Fresh(st, sent, except)
    ensures Fresh(st, sent + Announce(st, i, Audience(st, i)), except - {i})
  {
    hide MembersOf, Audience;
    var msgs := Announce(st, i, Audience(st, i));
    forall j | Needs(st, j) && j !in except - {i} ensures FreshItem(st, sent + msgs, j) {
      if msgs == [] {
        assert sent + msgs == sent;
        assert j != i;
      } else {
        assert msgs == [msgs[0]];
        LastAboutAppend(sent, msgs[0], j);
      }
    }
  }

  lemma NoticeKeepsFresh(st: Rv, sent: seq<Message>, except: set<Ref>, m: Message)
    requires Fresh(st, sent, except) && m.ScopeNotice?
    ensures Fresh(st, sent + [m], except)
  {
    forall j | Needs(st, j) && j !in except ensures FreshItem(st, sent + [m], j) {
      LastAboutAppend(sent, m, j);
    }
  }

  // ---------- which changes touch an item's audience ----------

  ghost predicate SameMembers(n: Node, n': Node) {
    forall role :: MembersOf(n, role) == MembersOf(n', role)
  }

  /** The item, its fathers, and everybody who counts for it are as before. */
  ghost predicate SameAudience(st: Rv, st': Rv, i: Ref) {
    && i in st.nodes && i in st'.nodes
    && st'.nodes[i].Item? == st.nodes[i].Item? && st'.nodes[i].strategy == st.nodes[i].strategy
    && st'.nodes[i].fathers == st.nodes[i].fathers
    && SameMembers(st.nodes[i], st'.nodes[i])
    && forall f :: f in st.nodes[i].fathers ==>
         f in st.nodes && f in st'.nodes && MembersOf(st'.nodes[f], Subscriber) == MembersOf(st.nodes[f], Subscriber)
  }

  lemma SameAudienceSame(st: Rv, st': Rv, i: Ref)
    requires SameAudience(st, st', i)
    ensures Audience(st', i) == Audience(st, i)
    ensures Needs(st', i) <==> Needs(st, i)
    ensures forall m :: Current(st', i, m) <==> Current(st, i, m)
  {
    hide MembersOf;
    assert forall role :: MembersOf(st'.nodes[i], role) == MembersOf(st.nodes[i], role);
    assert forall f :: f in st.nodes[i].fathers ==> MembersOf(st'.nodes[f], Subscriber) == MembersOf(st.nodes[f], Subscriber);
  }

  lemma FreshKept(st: Rv, st': Rv, sent: seq<Message>, except: set<Ref>, touched: set<Ref>)
    requires Fresh(st, sent, except)
    requires forall i :: Needs(st', i) && i !in touched ==> SameAudience(st, st', i)
    ensures Fresh(st', sent, except + touched)
  {
    hide MembersOf, Audience, SameAudience, Current;
    forall i | Needs(st', i) && i !in except + touched ensures FreshItem(st', sent, i) {
      SameAudienceSame(st, st', i);
      assert FreshItem(st, sent, i);
    }
  }

  lemma SameIdsSameMembers(n: Node, n': Node)
    requires n.ids == n'.ids
    ensures SameMembers(n, n')
  {
  }

  lemma EmptyPairsSameMembers(n: Node, n': Node)
    requires forall id :: id in n.ids && id in n'.ids ==> n.ids[id] == n'.ids[id]
    requires forall id :: id in n.ids && id !in n'.ids ==> n.ids[id] == NoHosts
    requires forall id :: id in n'.ids && id !in n.ids ==> n'.ids[id] == NoHosts
    ensures SameMembers(n, n')
  {
    forall role ensures MembersOf(n, role) == MembersOf(n', role) {
      forall h ensures h in MembersOf(n, role) <==> h in MembersOf(n', role) {
        if h in MembersOf(n, role) {
          var id :| id in n.ids && h in Members(n.ids[id], role);
          assert id in n'.ids && h in Members(n'.ids[id], role);
        }
        if h in MembersOf(n', role) {
          var id :| id in n'.ids && h in Members(n'.ids[id], role);
          assert id in n.ids && h in Members(n.ids[id], role);
        }
      }
    }
  }

  /** Entering or leaving at r touches r itself if it is an item, or its items if subscribers change. */
  function TouchedBy(st: Rv, role: Role, r: Ref): set<Ref>
    requires r in st.nodes
  {
    if st.nodes[r].Item? then {r} else if role.Subscriber? then st.nodes[r].items else {}
  }

  lemma SetHostTouches(st: Rv, role: Role, r: Ref, id: Id, h: Host, on: bool, i: Ref)
    requires Inv(st) && r in st.nodes && id in st.nodes[r].ids
    requires i in st.nodes && st.nodes[i].Item? && i !in TouchedBy(st, role, r)
    ensures SameAudience(st, SetHost(st, role, r, id, h, on), i)
  {
    hide AllSound, Indexed, Siblings, AllComplete, MembersOf;
    var st' := SetHost(st, role, r, id, h, on);
    assert NodeLinks(st, i);
    assert i != r;
    SameIdsSameMembers(st.nodes[i], st'.nodes[i]);
    forall f | f in st.nodes[i].fathers
      ensures f in st.nodes && f in st'.nodes && MembersOf(st'.nodes[f], Subscriber) == MembersOf(st.nodes[f], Subscriber)
    {
      assert FatherLink(st, i, f);
      if f == r {
        OtherRoleSame(st.nodes[r], id, Publisher, Subscriber, h, on);
      } else {
        SameIdsSameMembers(st.nodes[f], st'.nodes[f]);
      }
    }
  }

  lemma OtherRoleSame(n: Node, id: Id, role: Role, other: Role, h: Host, on: bool)
    requires id in n.ids && role != other
    ensures MembersOf(WithPair(n, id, WithMember(n.ids[id], role, h, on)), other) == MembersOf(n, other)
  {
    var n' := WithPair(n, id, WithMember(n.ids[id], role, h, on));
    forall x ensures x in MembersOf(n', other) <==> x in MembersOf(n, other) {
      if x in MembersOf(n, other) {
        var k :| k in n.ids && x in Members(n.ids[k], other);
        assert k in n'.ids && x in Members(n'.ids[k], other);
      }
      if x in MembersOf(n', other) {
        var k :| k in n'.ids && x in Members(n'.ids[k], other);
        assert k in n.ids && x in Members(n.ids[k], other);
      }
    }
  }

  lemma AudienceFromNodes(st: Rv, st': Rv, i: Ref)
    requires Inv(st) && i in st.nodes && i in st'.nodes
    requires st'.nodes[i].Item? == st.nodes[i].Item? && st'.nodes[i].strategy == st.nodes[i].strategy
    requires st'.nodes[i].fathers == st.nodes[i].fathers && SameMembers(st.nodes[i], st'.nodes[i])
    requires forall f :: f in st.nodes && f in st.nodes[i].fathers ==> f in st'.nodes && SameMembers(st.nodes[f], st'.nodes[f])
    ensures SameAudience(st, st', i)
  {
    hide MembersOf, AllSound, Indexed, Siblings, AllComplete;
    assert NodeLinks(st, i);
    forall f | f in st.nodes[i].fathers
      ensures f in st.nodes && f in st'.nodes && MembersOf(st'.nodes[f], Subscriber) == MembersOf(st.nodes[f], Subscriber)
    {
      assert FatherLink(st, i, f);
    }
  }

  lemma GrownMembers(n: Node, n': Node)
    requires NodeGrows(n, n')
    ensures SameMembers(n, n')
  {
    EmptyPairsSameMembers(n, n');
  }

  lemma AttachedAudience(st: Rv, st': Rv, i: Ref)
    requires Inv(st) && AttachedNode(st, st', i)
    requires forall f :: f in st.nodes && f in st.nodes[i].fathers ==> AttachedNode(st, st', f)
    ensures SameAudience(st, st', i)
  {
    hide Graph, AllComplete;
    SameIdsSameMembers(st.nodes[i], st'.nodes[i]);
    forall f | f in st.nodes && f in st.nodes[i].fathers ensures f in st'.nodes && SameMembers(st.nodes[f], st'.nodes[f]) {
      assert AttachedNode(st, st', f);
      SameIdsSameMembers(st.nodes[f], st'.nodes[f]);
    }
    AudienceFromNodes(st, st', i);
  }

  /** A new child touches no existing item and has no publishers itself. */
  lemma NewChildFresh(st: Rv, sent: seq<Message>, except: set<Ref>, f: Ref, r: Ref, scope: bool, name: Fragment, strategy: nat)
    requires Inv(st) && f in st.nodes && st.nodes[f].Scope? && r !in st.nodes && Fresh(st, sent, except)
    ensures Fresh(NewChild(st, f, r, scope, name, strategy), sent, except)
  {
    hide Inv, Fresh, SameAudience, MembersOf;
    var st1 := Attach(st, f, r, scope, name, strategy);
    var st2 := NewChild(st, f, r, scope, name, strategy);
    AttachOnly(st, f, r, scope, name, strategy);
    forall i | Needs(st2, i) && i !in {} ensures SameAudience(st, st2, i) {
      NewNodeHasNobody(st1, st2, r, Missing(st1, r));
      assert i != r;
      NewChildAudience(st, st1, st2, r, i);
    }
    FreshKept(st, st2, sent, except, {});
    assert except + {} == except;
  }

  lemma NewNodeHasNobody(st1: Rv, st2: Rv, r: Ref, s: set<Id>)
    requires r in st1.nodes && st1.nodes[r].ids == map[] && st2 == AddIds(st1, r, s)
    ensures r in st2.nodes && MembersOf(st2.nodes[r], Publisher) == {} && MembersOf(st2.nodes[r], Subscriber) == {}
    ensures forall n :: n in st1.nodes && n != r ==> n in st2.nodes && st2.nodes[n] == st1.nodes[n]
    ensures forall n :: n in st2.nodes ==> n in st1.nodes
  {
    hide MembersOf;
    FreshIdsHaveNobody(st1.nodes[r], s);
  }

  lemma FreshIdsHaveNobody(n: Node, s: set<Id>)
    requires n.ids == map[]
    ensures MembersOf(WithIds(n, s), Publisher) == {} && MembersOf(WithIds(n, s), Subscriber) == {}
  {
    assert forall id :: id in WithIds(n, s).ids ==> WithIds(n, s).ids[id] == NoHosts;
  }

  lemma NewChildAudience(st: Rv, st1: Rv, st2: Rv, r: Ref, i: Ref)
    requires Inv(st) && OnlyAttached(st, st1, r) && i in st.nodes
    requires forall n :: n in st1.nodes && n != r ==> n in st2.nodes && st2.nodes[n] == st1.nodes[n]
    ensures SameAudience(st, st2, i)
  {
    hide Graph, AllComplete;
    forall n | n in st.nodes ensures AttachedNode(st, st2, n) {
      assert AttachedNode(st, st1, n);
    }
    AttachedAudience(st, st2, i);
  }

  lemma DroppedAudience(st: Rv, st': Rv, r: Ref, gone: set<Id>, i: Ref)
    requires Inv(st) && OnlyDropped(st, st', r, gone) && NoChildren(st, r) && i in st.nodes && i != r
    ensures SameAudience(st, st', i)
  {
    hide Graph, AllComplete, OnlyDropped, AttachedNode;
    DroppedFathers(st, st', r, gone, i);
    AttachedAudience(st, st', i);
  }

  /** Dropping r or a branch of it touches at most r. */
  lemma DroppedFresh(st: Rv, st': Rv, sent: seq<Message>, except: set<Ref>, r: Ref, gone: set<Id>)
    requires Inv(st) && OnlyDropped(st, st', r, gone) && NoChildren(st, r) && Fresh(st, sent, except)
    ensures Fresh(st', sent, except + {r})
    ensures r !in st'.nodes || st'.nodes[r].Scope? ==> Fresh(st', sent, except)
  {
    hide Inv, Fresh, SameAudience, AttachedNode;
    forall i | Needs(st', i) && i !in {r} ensures SameAudience(st, st', i) {
      DroppedAudience(st, st', r, gone, i);
    }
    FreshKept(st, st', sent, except, {r});
    if r !in st'.nodes || st'.nodes[r].Scope? {
      FreshKept(st, st', sent, except, {});
      assert except + {} == except;
    }
  }
}
