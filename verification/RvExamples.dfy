/**
 Graphs that requests build up from nothing, on which republishing a scope goes wrong: once the items
 below keep a message with too few identifiers, once the graph would have a cycle.
 */
module RvExamples {
  import opened RvGraph
  import opened RvPropagation
  import opened RvHosts
  import opened RvFreshness
  import opened RvRequests
  import opened RvNames
  import opened RvServing

  const Empty := Rv(map[], map[], map[], map[])

  const Mine := HostPair({6}, {})
  const A: Id := [10]
  const B: Id := [20]
  const AC: Id := [10, 11]
  const ACI: Id := [10, 11, 12]

  /** Host 6 publishes scope 10, ... */
  const One := Rv(map[0 := Scope(10, DOMAIN_LOCAL, map[A := Mine], {}, {}, {})], map[A := 0], map[], map[6 := HostRecord({A}, {}, {}, {})])

  /** ... scope 11 below it, ... */
  const Two := Rv(map[0 := Scope(10, DOMAIN_LOCAL, map[A := Mine], {}, {1}, {}), 1 := Scope(11, DOMAIN_LOCAL, map[AC := Mine], {0}, {}, {})],
                  map[A := 0, AC := 1], map[], map[6 := HostRecord({A, AC}, {}, {}, {})])

  /** ... item 12 below that, ... */
  const Three := Rv(map[0 := Scope(10, DOMAIN_LOCAL, map[A := Mine], {}, {1}, {}), 1 := Scope(11, DOMAIN_LOCAL, map[AC := Mine], {0}, {}, {2}),
                        2 := Item(12, DOMAIN_LOCAL, map[ACI := Mine], {1})],
                    map[A := 0, AC := 1], map[ACI := 2], map[6 := HostRecord({A, AC}, {ACI}, {}, {})])

  /** ... and scope 20. */
  const Four := Rv(map[0 := Scope(10, DOMAIN_LOCAL, map[A := Mine], {}, {1}, {}), 1 := Scope(11, DOMAIN_LOCAL, map[AC := Mine], {0}, {}, {2}),
                       2 := Item(12, DOMAIN_LOCAL, map[ACI := Mine], {1}), 3 := Scope(20, DOMAIN_LOCAL, map[B := Mine], {}, {}, {})],
                   map[A := 0, AC := 1, B := 3], map[ACI := 2], map[6 := HostRecord({A, AC, B}, {ACI}, {}, {})])

  lemma Distinct()
    ensures A != B && A != AC && B != AC && A != ACI && B != ACI && AC != ACI
    ensures A + [11] == AC && AC + [12] == ACI
  {
    assert A[0] != B[0] && |AC| == 2 && |ACI| == 3;
  }

  lemma EmptyIsValid()
    ensures Valid(Empty)
  {
  }

  lemma SixEnters()
    ensures WithMember(NoHosts, Publisher, 6, true) == Mine
  {
    assert Toggle({}, 6, true) == {6};
  }

  lemma StepOne()
    ensures Valid(Empty) && EnterRoot(Empty, 0, Publisher, 6, 10, DOMAIN_LOCAL) == Outcome(One, SUCCESS) && Valid(One)
  {
    EmptyIsValid();
    SixEnters();
    EnterRootEffect(Empty, 0, Publisher, 6, 10, DOMAIN_LOCAL);
    var st := NewRoot(Empty, 0, 10, DOMAIN_LOCAL);
    assert st.nodes[0].ids == map[A := NoHosts];
    var st' := SetHost(st, Publisher, 0, A, 6, true);
    assert st'.nodes[0].ids == map[A := Mine];
    assert st'.nodes == One.nodes;
    assert Toggle({}, A, true) == {A};
  }

  /** What a child under a father with a single identifier inherits. */
  lemma OnlyMissing(st: Rv, f: Ref, r: Ref, scope: bool, name: Fragment, id: Id)
    requires f in st.nodes && st.nodes[f].Scope? && r !in st.nodes && st.nodes[f].ids.Keys == {id}
    ensures r in Attach(st, f, r, scope, name, DOMAIN_LOCAL).nodes
    ensures Missing(Attach(st, f, r, scope, name, DOMAIN_LOCAL), r) == {id + [name]}
  {
    var st1 := Attach(st, f, r, scope, name, DOMAIN_LOCAL);
    assert st1.nodes[f].ids.Keys == {id};
    assert f in st1.nodes[r].fathers && id in st1.nodes[f].ids;
  }

  function OneHost(scope: bool, name: Fragment, full: Id, f: Ref): Node {
    if scope then Scope(name, DOMAIN_LOCAL, map[full := Mine], {f}, {}, {}) else Item(name, DOMAIN_LOCAL, map[full := Mine], {f})
  }

  ghost predicate ChildAdded(st: Rv, st1: Rv, f: Ref, r: Ref, scope: bool, name: Fragment, full: Id)
    requires f in st.nodes && st.nodes[f].Scope?
  {
    && r in st1.nodes && full in st1.nodes[r].ids && st1.nodes[r].ids[full] == NoHosts && st1.nodes[r].Scope? == scope
    && st1.hosts == st.hosts
    && st1.nodes == st.nodes[f := if scope then WithChild(st.nodes[f], r) else WithItem(st.nodes[f], r)][r := st1.nodes[r]]
    && st1.scopeIndex == (if scope then st.scopeIndex[full := r] else st.scopeIndex)
    && st1.pubIndex == (if scope then st.pubIndex else st.pubIndex[full := r])
    && WithPair(st1.nodes[r], full, Mine) == OneHost(scope, name, full, f)
  }

  lemma NewChildIs(st: Rv, f: Ref, r: Ref, scope: bool, name: Fragment, id: Id)
    requires f in st.nodes && st.nodes[f].Scope? && r !in st.nodes && st.nodes[f].ids.Keys == {id}
    ensures ChildAdded(st, NewChild(st, f, r, scope, name, DOMAIN_LOCAL), f, r, scope, name, id + [name])
  {
    hide Missing, AddIds;
    OnlyMissing(st, f, r, scope, name, id);
    OneIdAdded(Attach(st, f, r, scope, name, DOMAIN_LOCAL), r, id + [name]);
  }

  lemma OneIdAdded(st: Rv, r: Ref, full: Id)
    requires r in st.nodes && st.nodes[r].ids == map[]
    ensures var st1 := AddIds(st, r, {full});
      && st1.nodes == st.nodes[r := WithPair(st.nodes[r], full, NoHosts)] && st1.hosts == st.hosts
      && st1.scopeIndex == (if st.nodes[r].Scope? then st.scopeIndex[full := r] else st.scopeIndex)
      && st1.pubIndex == (if st.nodes[r].Scope? then st.pubIndex else st.pubIndex[full := r])
  {
    assert Spread({full}, NoHosts) == map[full := NoHosts];
    assert WithIds(st.nodes[r], {full}) == WithPair(st.nodes[r], full, NoHosts);
  }

  lemma EnteredChild(st: Rv, st1: Rv, f: Ref, r: Ref, scope: bool, name: Fragment, full: Id)
    requires f in st.nodes && st.nodes[f].Scope? && ChildAdded(st, st1, f, r, scope, name, full)
    ensures SetHost(st1, Publisher, r, full, 6, true) ==
      Rv(st.nodes[f := if scope then WithChild(st.nodes[f], r) else WithItem(st.nodes[f], r)][r := OneHost(scope, name, full, f)],
         if scope then st.scopeIndex[full := r] else st.scopeIndex,
         if scope then st.pubIndex else st.pubIndex[full := r],
         st.hosts[6 := WithListed(Record(st, 6), Publisher, scope, full, true)])
  {
    hide OneHost, WithListed, WithMember, WithPair;
    SixEnters();
  }

  lemma StepTwo()
    ensures Valid(One) && 1 !in One.nodes && EnterScope(One, 1, Publisher, 6, 11, A, DOMAIN_LOCAL) == Outcome(Two, SUCCESS) && Valid(Two)
  {
    hide A, AC, B, ACI, Inv, Mirror, NewChild, SetHost, Mine;
    StepOne();
    Distinct();
    EnterScopeEffect(One, 1, Publisher, 6, 11, A, DOMAIN_LOCAL);
    NewChildIs(One, 0, 1, true, 11, A);
    EnteredChild(One, NewChild(One, 0, 1, true, 11, DOMAIN_LOCAL), 0, 1, true, 11, AC);
    assert WithChild(One.nodes[0], 1) == Two.nodes[0];
    assert One.nodes[0 := Two.nodes[0]][1 := OneHost(true, 11, AC, 0)] == Two.nodes;
    assert One.scopeIndex[AC := 1] == Two.scopeIndex;
    assert Toggle({A}, AC, true) == {A, AC};
    assert One.hosts[6 := WithListed(Record(One, 6), Publisher, true, AC, true)] == Two.hosts;
  }

  lemma StepThree()
    ensures Valid(Two) && 2 !in Two.nodes && EnterItem(Two, 2, Publisher, 6, 12, AC, DOMAIN_LOCAL) == Outcome(Three, SUCCESS) && Valid(Three)
  {
    hide A, AC, B, ACI, Inv, Mirror, NewChild, SetHost, Mine;
    StepTwo();
    Distinct();
    EnterItemEffect(Two, 2, Publisher, 6, 12, AC, DOMAIN_LOCAL);
    NewChildIs(Two, 1, 2, false, 12, AC);
    EnteredChild(Two, NewChild(Two, 1, 2, false, 12, DOMAIN_LOCAL), 1, 2, false, 12, ACI);
    assert WithItem(Two.nodes[1], 2) == Three.nodes[1];
    assert Two.nodes[1 := Three.nodes[1]][2 := OneHost(false, 12, ACI, 1)] == Three.nodes;
    assert Two.pubIndex[ACI := 2] == Three.pubIndex;
    assert Toggle({}, ACI, true) == {ACI};
    assert Two.hosts[6 := WithListed(Record(Two, 6), Publisher, false, ACI, true)] == Three.hosts;
  }

  lemma StepFour()
    ensures Valid(Three) && EnterRoot(Three, 3, Publisher, 6, 20, DOMAIN_LOCAL) == Outcome(Four, SUCCESS) && Valid(Four)
  {
    hide A, AC, ACI, Inv, Mirror;
    StepThree();
    SixEnters();
    Distinct();
    assert [20] == B;
    EnterRootEffect(Three, 3, Publisher, 6, 20, DOMAIN_LOCAL);
    var st := NewRoot(Three, 3, 20, DOMAIN_LOCAL);
    assert st.nodes[3].ids == map[B := NoHosts];
    var st' := SetHost(st, Publisher, 3, B, 6, true);
    assert st'.nodes[3].ids == map[B := Mine];
    assert st'.nodes == Four.nodes;
    assert st'.scopeIndex == Four.scopeIndex;
    assert Toggle({A, AC}, B, true) == {A, AC, B};
    assert st'.hosts == Four.hosts;
  }

  // ---------- republishing scope 11 ----------

  lemma FourIs()
    ensures Inv(Four) && Four.nodes.Keys == {0, 1, 2, 3}
    ensures Four.nodes[1].Scope? && Four.nodes[1].name == 11 && Four.nodes[1].ids.Keys == {AC} && Four.nodes[1].strategy == DOMAIN_LOCAL
    ensures Four.nodes[2].Item? && Four.nodes[2].ids == map[ACI := Mine] && Four.nodes[2].strategy == DOMAIN_LOCAL
    ensures Four.nodes[3].Scope? && Four.nodes[3].ids.Keys == {B} && Four.nodes[3].strategy == DOMAIN_LOCAL
    ensures Four.scopeIndex == map[A := 0, AC := 1, B := 3] && Four.pubIndex == map[ACI := 2]
  {
    hide Inv, Mirror, EnterRoot;
    StepFour();
  }

  lemma RepublishPlans()
    ensures Inv(Four) && PlanScope(Four, AC, B, DOMAIN_LOCAL) == LinkTo(3, 1) && PlanScope(Four, AC, AC, DOMAIN_LOCAL) == LinkTo(1, 1)
  {
    hide Inv, Four, A, B, AC, ACI;
    FourIs();
    FourPrefixes();
    Distinct();
  }

  /** Under scope 20: the item below has gained an identifier that its last message does not list. */
  lemma RepublishMisnames(st1: Rv)
    requires Inv(st1) && LinkedAndPropagated(Four, st1, 3, 1)
    ensures Inv(Four) && PlanScope(Four, AC, B, DOMAIN_LOCAL) == LinkTo(3, 1)
    ensures 1 in Four.nodes && 3 in Four.nodes && NotAbove(Four, 1, 3)
    ensures Needs(Four, 2) && NamesItem(Four, Announce(Four, 2, Audience(Four, 2)), 2)
    ensures Needs(st1, 2) && !NamesItem(st1, Announce(Four, 2, Audience(Four, 2)), 2)
  {
    hide Inv, Four, Link, Propagated, Audience, A, B, AC, ACI, Below;
    RepublishPlans();
    FourIs();
    FourPrefixes();
    ItemPublished(Four);
    var msgs := Announce(Four, 2, Audience(Four, 2));
    assert msgs == [msgs[0]];
    LastAboutAppend([], msgs[0], 2);
    assert [] + msgs == msgs;
    assert 1 in Four.nodes && 3 in Four.nodes && AC in Four.nodes[1].ids.Keys && ACI in Four.nodes[2].ids && B in Four.nodes[3].ids.Keys;
    BelowBy(Four, 1, 2, AC, ACI);
    LinkedNames(Four, st1, msgs, 3, 1, B, 2);
  }

  lemma BelowBy(st: Rv, r: Ref, x: Ref, id: Id, xid: Id)
    requires r in st.nodes && x in st.nodes && id in st.nodes[r].ids && xid in st.nodes[x].ids && id <= xid
    ensures Below(st, r, x)
  {
  }

  lemma ItemPublished(st: Rv)
    requires 2 in st.nodes && st.nodes[2].ids == map[ACI := Mine]
    ensures MembersOf(st.nodes[2], Publisher) != {}
  {
    assert ACI in st.nodes[2].ids && 6 in Members(st.nodes[2].ids[ACI], Publisher);
    assert 6 in MembersOf(st.nodes[2], Publisher);
  }

  lemma FourPrefixes()
    ensures AC <= ACI && !(AC <= B) && AC <= AC
    ensures B + [11] != A && B + [11] != AC && B + [11] != B && B + [11] != ACI
    ensures AC + [11] != A && AC + [11] != AC && AC + [11] != B && AC + [11] != ACI
    ensures Last(AC) == 11 && AC != [] && |AC| >= 2
  {
    assert (B + [11])[0] == 20 && AC[0] == 10;
    assert (AC + [11])[2] == 11 && ACI[2] == 12;
  }

  /** Under itself: no identifiers ever settle the graph. */
  lemma RepublishCycles(st1: Rv)
    requires st1.nodes.Keys == Four.nodes.Keys && 1 in st1.nodes && 1 in st1.nodes[1].fathers
    requires forall x :: x in Four.nodes ==> Four.nodes[x].fathers <= st1.nodes[x].fathers
    ensures Inv(Four) && PlanScope(Four, AC, AC, DOMAIN_LOCAL) == LinkTo(1, 1)
    ensures 1 in Four.nodes && !NotAbove(Four, 1, 1)
    ensures !AllComplete(st1)
  {
    hide Graph, AllComplete, Four, A, B, AC, ACI;
    RepublishPlans();
    FourIs();
    FourPrefixes();
    assert 1 in Four.nodes && AC in Four.nodes[1].ids.Keys;
    CyclicLinkNeverSettles(Four, 1, 1, st1);
  }
}
