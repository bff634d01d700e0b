/**
 The identifiers the last message about an item lists, and when they are still all the item has.  New
 fathers above an item add identifiers without a new message; losing a branch takes identifiers away
 after one.
 */
module RvNames {
  import opened RvGraph
  import opened RvPropagation
  import opened RvHosts
  import opened RvFreshness
  import opened RvRequests

  /** The last message about i lists exactly the identifiers i has. */
  ghost predicate NamesItem(st: Rv, sent: seq<Message>, i: Ref)
    requires i in st.nodes
  {
    LastAbout(sent, i) < |sent| && sent[LastAbout(sent, i)].ids == st.nodes[i].ids.Keys
  }

  /** That holds for every item with publishers, except those listed. */
  ghost predicate Named(st: Rv, sent: seq<Message>, except: set<Ref>) {
    forall i :: Needs(st, i) && i !in except ==> NamesItem(st, sent, i)
  }

  /** The last message about a published item was sent, and lists its identifiers. */
  lemma LastMessageNames(st: Rv, sent: seq<Message>, except: set<Ref>, i: Ref) returns (k: nat)
    requires Named(st, sent, except) && Needs(st, i) && i !in except
    ensures k < |sent| && About(sent[k], i) && forall j :: k < j < |sent| ==> !About(sent[j], i)
    ensures sent[k].ids == st.nodes[i].ids.Keys
  {
    hide MembersOf;
    LastAboutIsLast(sent, i);
    k := LastAbout(sent, i);
    assert NamesItem(st, sent, i);
  }

  // ---------- changes that leave an item's identifiers alone ----------

  ghost predicate SameNames(st: Rv, st': Rv, i: Ref) {
    i in st.nodes && i in st'.nodes && st'.nodes[i].ids.Keys == st.nodes[i].ids.Keys && (Needs(st', i) ==> Needs(st, i))
  }

  lemma NamedKept(st: Rv, st': Rv, sent: seq<Message>, except: set<Ref>, touched: set<Ref>)
    requires Named(st, sent, except) && forall i :: Needs(st', i) && i !in touched ==> SameNames(st, st', i)
    ensures Named(st', sent, except + touched)
  {
    hide Needs;
    forall i | Needs(st', i) && i !in except + touched ensures i in st'.nodes && NamesItem(st', sent, i) {
      assert SameNames(st, st', i);
      assert NamesItem(st, sent, i);
    }
  }

  lemma AttachedNames(st: Rv, st': Rv, i: Ref)
    requires AttachedNode(st, st', i)
    ensures SameNames(st, st', i)
  {
    SameIdsSameMembers(st.nodes[i], st'.nodes[i]);
    assert MembersOf(st.nodes[i], Publisher) == MembersOf(st'.nodes[i], Publisher);
  }

  lemma AnnounceNames(st: Rv, sent: seq<Message>, except: set<Ref>, i: Ref, subs: set<Host>)
    requires i in st.nodes && Named(st, sent, except)
    ensures Named(st, sent + Announce(st, i, subs), except - {i})
  {
    hide MembersOf;
    var msgs := Announce(st, i, subs);
    forall j | Needs(st, j) && j !in except - {i} ensures NamesItem(st, sent + msgs, j) {
      if msgs == [] {
        assert sent + msgs == sent;
        assert j != i;
      } else {
        assert msgs == [msgs[0]];
        LastAboutAppend(sent, msgs[0], j);
      }
    }
  }

  lemma NoticeNames(st: Rv, sent: seq<Message>, except: set<Ref>, msgs: seq<Message>)
    requires Named(st, sent, except) && (msgs == [] || (|msgs| == 1 && msgs[0].ScopeNotice?))
    ensures Named(st, sent + msgs, except)
  {
    if msgs == [] {
      assert sent + msgs == sent;
    } else {
      assert msgs == [msgs[0]];
      forall j | Needs(st, j) && j !in except ensures NamesItem(st, sent + msgs, j) {
        LastAboutAppend(sent, msgs[0], j);
      }
    }
  }

  lemma SetHostNamed(st: Rv, sent: seq<Message>, except: set<Ref>, role: Role, r: Ref, id: Id, h: Host, on: bool)
    requires Inv(st) && r in st.nodes && id in st.nodes[r].ids && Named(st, sent, except)
    ensures Named(SetHost(st, role, r, id, h, on), sent, except + TouchedBy(st, role, r))
  {
    hide Inv, Named, MembersOf, SameAudience;
    var st' := SetHost(st, role, r, id, h, on);
    SetHostSameKeys(st, role, r, id, h, on);
    forall i | Needs(st', i) && i !in TouchedBy(st, role, r) ensures SameNames(st, st', i) {
      assert SameNode(st.nodes[i], st'.nodes[i]);
      SetHostTouches(st, role, r, id, h, on, i);
      SameAudienceSame(st, st', i);
    }
    NamedKept(st, st', sent, except, TouchedBy(st, role, r));
  }

  lemma NewRootNamed(st: Rv, sent: seq<Message>, except: set<Ref>, r: Ref, name: Fragment, strategy: nat)
    requires r !in st.nodes && Named(st, sent, except)
    ensures Named(NewRoot(st, r, name, strategy), sent, except)
  {
    hide Named, MembersOf;
    var st' := NewRoot(st, r, name, strategy);
    forall i | Needs(st', i) && i !in {} ensures SameNames(st, st', i) {
      assert AttachedNode(st, st', i);
      AttachedNames(st, st', i);
    }
    NamedKept(st, st', sent, except, {});
    assert except + {} == except;
  }

  lemma NewChildNamed(st: Rv, sent: seq<Message>, except: set<Ref>, f: Ref, r: Ref, scope: bool, name: Fragment, strategy: nat)
    requires f in st.nodes && st.nodes[f].Scope? && r !in st.nodes && Named(st, sent, except)
    ensures Named(NewChild(st, f, r, scope, name, strategy), sent, except)
  {
    hide Named, MembersOf;
    var st1 := Attach(st, f, r, scope, name, strategy);
    var st2 := NewChild(st, f, r, scope, name, strategy);
    AttachOnly(st, f, r, scope, name, strategy);
    NewNodeHasNobody(st1, st2, r, Missing(st1, r));
    forall i | Needs(st2, i) && i !in {} ensures SameNames(st, st2, i) {
      assert i != r;
      assert AttachedNode(st, st1, i);
      AttachedNames(st, st2, i);
    }
    NamedKept(st, st2, sent, except, {});
    assert except + {} == except;
  }

  /** Dropping r or a branch of it touches at most r. */
  lemma DroppedNamed(st: Rv, st': Rv, sent: seq<Message>, except: set<Ref>, r: Ref, gone: set<Id>)
    requires OnlyDropped(st, st', r, gone) && Named(st, sent, except)
    ensures Named(st', sent, except + {r})
    ensures r !in st'.nodes || st'.nodes[r].Scope? ==> Named(st', sent, except)
  {
    hide Named, MembersOf;
    forall i | Needs(st', i) && i !in {r} ensures SameNames(st, st', i) {
      assert AttachedNode(st, st', i);
      AttachedNames(st, st', i);
    }
    NamedKept(st, st', sent, except, {r});
    if r !in st'.nodes || st'.nodes[r].Scope? {
      NamedKept(st, st', sent, except, {});
      assert except + {} == except;
    }
  }

  lemma DropNamed(st: Rv, sent: seq<Message>, except: set<Ref>, f: Ref, r: Ref)
    requires Valid(st) && r in st.nodes && f in st.nodes && st.nodes[f].Scope? && f in st.nodes[r].fathers && Named(st, sent, except)
    ensures Named(DropNode(st, f, r), sent, except)
    ensures Named(DropBranch(st, f, r), sent, except + if st.nodes[r].Scope? then {} else {r})
  {
    hide Inv, Mirror, Named, DropNode, DropBranch, OnlyDropped;
    NotOwnFather(st, r);
    InvIndexed(st);
    DropNodeShape(st, DropNode(st, f, r), r);
    DropNodeGoes(st, f, r);
    DroppedNamed(st, DropNode(st, f, r), sent, except, r, st.nodes[r].ids.Keys);
    DropBranchShape(st, f, r);
    DropBranchStaysKind(st, f, r);
    DroppedNamed(st, DropBranch(st, f, r), sent, except, r, IdsVia(st, f, r));
    assert except + {} == except;
  }

  lemma DropNodeGoes(st: Rv, f: Ref, r: Ref)
    requires r in st.nodes && f in st.nodes && st.nodes[f].Scope?
    ensures r !in DropNode(st, f, r).nodes
  {
  }

  lemma DropBranchStaysKind(st: Rv, f: Ref, r: Ref)
    requires r in st.nodes && f in st.nodes && f != r && st.nodes[f].Scope?
    ensures r in DropBranch(st, f, r).nodes && DropBranch(st, f, r).nodes[r].Scope? == st.nodes[r].Scope?
    ensures DropBranch(st, f, r).nodes[r].ids == st.nodes[r].ids - IdsVia(st, f, r)
  {
  }

  lemma DropRootNamed(st: Rv, sent: seq<Message>, except: set<Ref>, r: Ref)
    requires Inv(st) && r in st.nodes && Named(st, sent, except)
    ensures Named(DropRoot(st, r), sent, except)
  {
    hide Inv, Named, DropRoot, OnlyDropped;
    DropNodeShape(st, DropRoot(st, r), r);
    DropRootGoes(st, r);
    DroppedNamed(st, DropRoot(st, r), sent, except, r, st.nodes[r].ids.Keys);
  }

  lemma DropRootGoes(st: Rv, r: Ref)
    requires r in st.nodes
    ensures r !in DropRoot(st, r).nodes
  {
  }

  /** An item nobody publishes, or that is gone, needs no message. */
  lemma UnpublishedNamed(st: Rv, sent: seq<Message>, except: set<Ref>, r: Ref)
    requires Named(st, sent, except) && (r in st.nodes ==> MembersOf(st.nodes[r], Publisher) == {})
    ensures Named(st, sent, except - {r})
  {
  }

  // ---------- changes that do not ----------

  /** The items with an identifier that starts with one of r's. */
  ghost function ItemsBelow(st: Rv, r: Ref): set<Ref>
    requires r in st.nodes
  {
    set i | i in st.nodes && st.nodes[i].Item? && Below(st, r, i)
  }

  /** Below r is r itself and everything with a father below r. */
  lemma BelowMeansReached(st: Rv, r: Ref, x: Ref)
    requires Inv(st) && r in st.nodes && x in st.nodes
    ensures Below(st, r, x) <==> x == r || exists g :: g in st.nodes && g in st.nodes[x].fathers && Below(st, r, g)
  {
    hide AllSound, Links, Indexed, Siblings, Below;
    if x == r {
      SelfBelow(st, r);
    } else if Below(st, r, x) {
      var g := FatherBelow(st, r, x);
    } else {
      forall g | g in st.nodes && g in st.nodes[x].fathers ensures !Below(st, r, g) {
        if Below(st, r, g) {
          BelowIsClosed(st, r, g, x);
        }
      }
    }
  }

  lemma FatherBelow(st: Rv, r: Ref, x: Ref) returns (g: Ref)
    requires Inv(st) && r in st.nodes && x in st.nodes && x != r && Below(st, r, x)
    ensures g in st.nodes && g in st.nodes[x].fathers && Below(st, r, g)
  {
    hide Links, AllSound, Indexed, Siblings, AllComplete;
    var id, xid :| id in st.nodes[r].ids && xid in st.nodes[x].ids && id <= xid;
    IdNotEmpty(st, r, id);
    if |id| == |xid| {
      assert id == xid;
      OneOwner(st, r, x, id);
    }
    g := FatherOfId(st, x, xid);
    assert id <= Front(xid);
  }

  /** What does not lie below the linked node gains no identifier. */
  lemma {:induction false} NoNewIds(st: Rv, st1: Rv, f: Ref, r: Ref, x: Ref, id: Id)
    requires Inv(st) && Inv(st1) && LinkedAndPropagated(st, st1, f, r) && x in st.nodes && !Below(st, r, x)
    requires x in st1.nodes && id in st1.nodes[x].ids
    ensures id in st.nodes[x].ids
    decreases |id|
  {
    hide Links, Indexed, Siblings, AllSound, AllComplete, Below, Link, Propagated;
    BelowMeansReached(st, r, x);
    LinkedNodeShape(st, st1, f, r, x);
    SoundAt1(st1, x);
    CompleteAt(st, x);
    FrontLast(id, st.nodes[x].name);
    if st.nodes[x].fathers == {} {
      assert id == [st.nodes[x].name];
    } else {
      var g := FatherOfId(st1, x, id);
      LinkedNodeShape(st, st1, f, r, g);
      NoNewIds(st, st1, f, r, g, Front(id));
      assert Extends(st, x, Front(id));
    }
  }

  lemma SoundAt1(st: Rv, x: Ref)
    requires Inv(st) && x in st.nodes
    ensures Sound(st, x)
  {
  }

  lemma CompleteAt(st: Rv, x: Ref)
    requires Inv(st) && x in st.nodes
    ensures Complete(st, x)
  {
  }

  lemma LinkedNodeShape(st: Rv, st1: Rv, f: Ref, r: Ref, x: Ref)
    requires LinkedAndPropagated(st, st1, f, r)
    ensures x in st.nodes <==> x in st1.nodes
    ensures x in st.nodes ==>
      && st1.nodes[x].name == st.nodes[x].name && st1.nodes[x].Scope? == st.nodes[x].Scope?
      && st1.nodes[x].strategy == st.nodes[x].strategy
      && st1.nodes[x].fathers == (if x == r then st.nodes[x].fathers + {f} else st.nodes[x].fathers)
      && st.nodes[x].ids.Keys <= st1.nodes[x].ids.Keys
      && SameMembers(st.nodes[x], st1.nodes[x])
  {
    hide Graph, Complete, Link, SameMembers, MembersOf;
    var mid := Link(st, f, r);
    LinkShape(st, f, r, x);
    if x in st.nodes {
      assert NodeGrows(mid.nodes[x], st1.nodes[x]);
      GrownMembers(mid.nodes[x], st1.nodes[x]);
      SameIdsSameMembers(st.nodes[x], mid.nodes[x]);
      SameMembersTransitive(st.nodes[x], mid.nodes[x], st1.nodes[x]);
    }
  }

  lemma SameMembersTransitive(a: Node, b: Node, c: Node)
    requires SameMembers(a, b) && SameMembers(b, c)
    ensures SameMembers(a, c)
  {
    hide MembersOf;
    assert forall role :: MembersOf(a, role) == MembersOf(b, role) && MembersOf(b, role) == MembersOf(c, role);
  }

  /** Everything below r carries, for every identifier of r in st1, the same rest behind it. */
  lemma {:induction false} CarriesRest(st: Rv, st1: Rv, f: Ref, r: Ref, x: Ref, id: Id, xid: Id, gained: Id)
    requires Inv(st) && Inv(st1) && LinkedAndPropagated(st, st1, f, r) && x in st.nodes
    requires r in st.nodes && id in st.nodes[r].ids && xid in st.nodes[x].ids && id <= xid
    requires r in st1.nodes && gained in st1.nodes[r].ids
    ensures x in st1.nodes && gained + xid[|id|..] in st1.nodes[x].ids
    decreases |xid|
  {
    hide Links, Indexed, Siblings, AllSound, AllComplete, Link, Propagated;
    IdNotEmpty(st, r, id);
    if |id| == |xid| {
      assert id == xid && gained + xid[|id|..] == gained;
      OneOwner(st, r, x, id);
    } else {
      var g := FatherOfId(st, x, xid);
      CarriesRest(st, st1, f, r, g, id, Front(xid), gained);
      LinkedNodeShape(st, st1, f, r, x);
      CompleteAt(st1, x);
      var front := gained + Front(xid)[|id|..];
      assert Extends(st1, x, front);
      SoundAt1(st, x);
      assert front + [st.nodes[x].name] == gained + xid[|id|..];
    }
  }

  /** What lies below the linked node gains the identifier through the new father. */
  lemma GainsId(st: Rv, st1: Rv, f: Ref, r: Ref, prefix: Id, x: Ref)
    requires Inv(st) && Inv(st1) && LinkedAndPropagated(st, st1, f, r) && x in st.nodes && Below(st, r, x)
    requires prefix in st.nodes[f].ids
    requires prefix + [st.nodes[r].name] !in st.scopeIndex && prefix + [st.nodes[r].name] !in st.pubIndex
    ensures x in st1.nodes && st1.nodes[x].ids.Keys != st.nodes[x].ids.Keys
  {
    hide Links, Siblings, AllSound, AllComplete, Link, Propagated, Indexed;
    var gained := prefix + [st.nodes[r].name];
    LinkedNodeShape(st, st1, f, r, r);
    LinkedNodeShape(st, st1, f, r, f);
    CompleteAt(st1, r);
    assert prefix in st1.nodes[f].ids.Keys;
    assert Extends(st1, r, prefix);
    var id, xid :| id in st.nodes[r].ids && xid in st.nodes[x].ids && id <= xid;
    CarriesRest(st, st1, f, r, x, id, xid, gained);
    var full := gained + xid[|id|..];
    if full in st.nodes[x].ids {
      CarriedIsIndexed(st, x, full);
      PrefixIsIndexed(st, gained, full);
    }
    assert full in st1.nodes[x].ids.Keys;
  }

  lemma PrefixIsIndexed(st: Rv, id: Id, full: Id)
    requires Inv(st) && id != [] && id <= full && (full in st.scopeIndex || full in st.pubIndex)
    ensures id in st.scopeIndex || (id == full && id in st.pubIndex)
  {
    hide Graph, AllComplete;
    if |id| < |full| {
      PrefixClosed(st, full, |id|);
      assert full[..|id|] == id;
    } else {
      assert id == full;
    }
  }

  lemma CarriedIsIndexed(st: Rv, x: Ref, id: Id)
    requires Inv(st) && x in st.nodes && id in st.nodes[x].ids
    ensures id in st.scopeIndex || id in st.pubIndex
  {
    assert Owner(st, id, x);
  }

  /** After a node gained a father and its identifiers were handed down, the last message about a published item still
      lists all its identifiers exactly if the item does not lie below that node. */
  lemma LinkedNames(st: Rv, st1: Rv, sent: seq<Message>, f: Ref, r: Ref, prefix: Id, i: Ref)
    requires Inv(st) && Inv(st1) && LinkedAndPropagated(st, st1, f, r) && prefix in st.nodes[f].ids
    requires prefix + [st.nodes[r].name] !in st.scopeIndex && prefix + [st.nodes[r].name] !in st.pubIndex
    requires Needs(st, i) && NamesItem(st, sent, i)
    ensures Needs(st1, i) && (NamesItem(st1, sent, i) <==> !Below(st, r, i))
  {
    hide Graph, AllComplete, Link, Propagated, MembersOf, Below;
    LinkedNodeShape(st, st1, f, r, i);
    if Below(st, r, i) {
      GainsId(st, st1, f, r, prefix, i);
    } else {
      SameKeysNotBelow(st, st1, f, r, i);
    }
  }

  lemma SameKeysNotBelow(st: Rv, st1: Rv, f: Ref, r: Ref, i: Ref)
    requires Inv(st) && Inv(st1) && LinkedAndPropagated(st, st1, f, r) && i in st.nodes && !Below(st, r, i)
    ensures i in st1.nodes && st1.nodes[i].ids.Keys == st.nodes[i].ids.Keys
  {
    hide Graph, AllComplete, Link, Propagated, MembersOf, Below;
    LinkedNodeShape(st, st1, f, r, i);
    forall id | id in st1.nodes[i].ids.Keys ensures id in st.nodes[i].ids.Keys {
      NoNewIds(st, st1, f, r, i, id);
    }
  }

  lemma LinkedNamed(st: Rv, st1: Rv, sent: seq<Message>, except: set<Ref>, f: Ref, r: Ref)
    requires Inv(st) && Inv(st1) && LinkedAndPropagated(st, st1, f, r) && Named(st, sent, except)
    ensures Named(st1, sent, except + ItemsBelow(st, r))
  {
    hide Graph, AllComplete, Link, Propagated, MembersOf, Below, Named;
    forall i | Needs(st1, i) && i !in ItemsBelow(st, r) ensures SameNames(st, st1, i) {
      LinkedNodeShape(st, st1, f, r, i);
      SameKeysNotBelow(st, st1, f, r, i);
      assert MembersOf(st.nodes[i], Publisher) == MembersOf(st1.nodes[i], Publisher);
    }
    NamedKept(st, st1, sent, except, ItemsBelow(st, r));
  }

  /** Nothing lies below an item but the item. */
  lemma BelowItem(st: Rv, r: Ref)
    requires Inv(st) && r in st.nodes && st.nodes[r].Item?
    ensures ItemsBelow(st, r) == {r}
  {
    hide Below, Links, AllSound, AllComplete, Siblings, Indexed;
    SelfBelow(st, r);
    forall x | x in ItemsBelow(st, r) ensures x == r {
      if x != r {
        var g := FatherBelow(st, r, x);
        LinkedToScope(st, x, g);
        ItemAboveNothing(st, r, g);
      }
    }
  }

  lemma LinkedToScope(st: Rv, x: Ref, g: Ref)
    requires Inv(st) && x in st.nodes && g in st.nodes[x].fathers
    ensures g in st.nodes && st.nodes[g].Scope?
  {
    ScopeOfFatherInv(st, x, g);
  }

  lemma ItemAboveNothing(st: Rv, r: Ref, g: Ref)
    requires Inv(st) && r in st.nodes && st.nodes[r].Item? && g in st.nodes && st.nodes[g].Scope?
    ensures !Below(st, r, g)
  {
    hide Links, AllSound, AllComplete, Siblings;
    forall id, gid | id in st.nodes[r].ids && gid in st.nodes[g].ids ensures !(id <= gid) {
      if id <= gid {
        assert Owner(st, id, r) && Owner(st, gid, g);
        IdNotEmpty(st, r, id);
        PrefixIsIndexed(st, id, gid);
      }
    }
  }

  /** Announced first and pruned afterwards: the announcement lists identifiers the item no longer has. */
  lemma DroppedNotNamed(st: Rv, sent: seq<Message>, f: Ref, i: Ref)
    requires Inv(st) && Needs(st, i) && f in st.nodes[i].fathers && f in st.nodes && st.nodes[f].Scope?
    ensures i in DropBranch(st, f, i).nodes && !NamesItem(DropBranch(st, f, i), sent + Announce(st, i, Audience(st, i)), i)
  {
    hide Graph, AllComplete, DropBranch, MembersOf, Audience;
    NotOwnFather(st, i);
    DropBranchStaysKind(st, f, i);
    LastAboutAppend(sent, Announce(st, i, Audience(st, i))[0], i);
    assert Announce(st, i, Audience(st, i)) == [Announce(st, i, Audience(st, i))[0]];
    CompleteAt(st, f);
    CompleteAt(st, i);
    HasIds(st, f);
    var id :| id in st.nodes[f].ids.Keys;
    assert Extends(st, i, id);
    assert id + [st.nodes[i].name] in IdsVia(st, f, i);
    assert id + [st.nodes[i].name] in st.nodes[i].ids.Keys;
    assert id + [st.nodes[i].name] !in DropBranch(st, f, i).nodes[i].ids.Keys;
  }

  lemma HasIds(st: Rv, f: Ref)
    requires Inv(st) && f in st.nodes
    ensures st.nodes[f].ids.Keys != {}
  {
    assert Complete(st, f);
  }
}
