# Blackadder: a verified model of its core

Blackadder is an information-centric networking node.  Applications publish and subscribe to
identifiers instead of addresses; a rendezvous node matches them on a graph of scopes and items; a
topology manager computes forwarding identifiers; forwarders move packets by testing single link
identifiers against the one in the packet.  This project models the parts with state, arithmetic or a
protocol, and proves what they keep and promise.

* **Maximum concurrent flow** (`RealArithmetic`, `GrowthFactor`, `FlowNetwork`, `FlowSteps`, `FlowPhases`,
  `FlowRuns`, `FlowOvershoot`, `GraphMf`).  The solver of the traffic-engineering topology manager: edge
  lengths delta / capacity, pushes along shortest paths, multiplicative length updates, phases and
  rescaling.  Termination, conservation, the capacity bound, weak duality and the approximation
  guarantee hold for every network, demand set and demand order.  The solver's rescaling by the
  logarithm of 1 / delta does not by itself respect the capacities: `FlowOvershoot` has one edge on which
  it does not.  An edge whose final length has not passed 1 / capacity is always within its capacity
  (`ShortStaysWithin`), so that only edges of one path can exceed it (`OnlyOnePathOvershoots`); where all
  capacities are equal and the demands multiples of them, the converse holds too (`UniformOvershoot`), and
  for a single edge it can be told from e and delta alone (`SingleEdgeOvershoot`).
* **Traffic-engineering table** (`TrafficEngineering`).  Path probabilities and the choice of a path by a draw.
* **Rendezvous** (`RvGraph`, `RvPropagation`, `RvHosts`, `RvFreshness`, `RvRequests`, `RvAcceptance`, `RvNames`,
  `RvServing`, `RvNotices`, `RvExamples`, `LocalRv`).
  Scopes and items live in a store and refer to each other by reference, so that a node reached over
  several paths is one node.  Between requests a node carries, and the indexes list, exactly the
  identifiers that spell a path from a root to it; every host's record mirrors the graph; and the last
  message about every published item states its current publishers and subscribers.  The one
  exception is unsubscribing from an item when that drops a branch: the item is announced before the
  branch goes.  `stale` collects such items, `AnnouncedThenDropped` says exactly when the message is
  then out of date, and `UnsubscribeLeavesStale` gives a graph where it is.  The identifiers the last
  message lists are out of date in one more case: republishing a scope adds identifiers to exactly the
  items below it, without a message about them (`LinkedNames`, `RepublishMisnames`).  `misnamed` collects
  these items, and `Serve` says for every request which items it can add to either set.  A scope
  republished below itself, which the source does not exclude, never settles (`CyclicLinkNeverSettles`,
  `RepublishCycles`).  `RvAcceptance` says when each request is accepted and with which code it is refused, by what
  was indexed and entered before; `RvNotices` says whom the messages reach and what they state, in terms of who is
  entered for what.
* **Local proxy** (`ProxyState`, `LocalProxy`).  Many applications appear as one publisher and subscriber:
  replaying the forwarded requests gives exactly the machine's publications and forwarded
  subscriptions with their kinds, no forwarded request is redundant, every clean-up message has the kind of what
  it undoes, at most one publisher per identifier is started,
  and a disconnect cleans up items first and scopes from the deepest up and tells one remaining publisher
  of every item it leaves unstarted to start.  An unpublish hands over to nobody: `UnpublishStarted` says
  exactly when that leaves an item with publishers but none started.
* **Forwarding** (`LinkIds`, `Forwarding`, `PathFids`, `TmIgraph`, `EndToEnd`).  Link identifiers are assigned,
  ORed along shortest paths, and matched hop by hop: no subscriber is missed, and in a domain with no
  more identifiers than bits a packet crosses exactly its path.  A subscriber nobody can reach makes
  the topology manager replace the identifier of the publisher chosen last; `OutcomeIsKept` and
  `CoveredExactly` say for any subscribers in any order what every publisher is left with and who loses,
  and `SubscriberLost` shows it.
* **Link failures** (`LinkFailures`, `TmIgraph`).  Failed links are taken out and keep their identifiers until they
  recover.
* **Bit vectors** (`Words`, `BaBitvector`).  Word-level operations refine bit sequences as long as the bits
  above the last one are zero.  The header promises that added bits are false; after a shrink that
  holds only if the lost bits in the kept words were, and assigning up to 32 bits leaves the second word
  alone; the difference of two vectors keeps stale words too.  `Resize`, `Assign` and `OrWithDifference`
  state exactly when.
* **Control messages** (`WireFormats`).  From the rendezvous node through the topology manager to the proxy.

Each object of the source is a class whose methods update its fields; each method is proved against a
function or relation on values, and the lemmas are about those.  `hide` statements keep definitions
out of proofs that do not need them.

`dafny verify dfyconfig.toml` verifies everything; the proofs stay within a resource limit of 2000000.

## Model

| member | source | states |
|---|---|---|
| GrowthFactor.InterpStep | TopologyManager/tm_max_flow.cpp:331-361 | the interpolated power g(t) of 1 + e grows within a unit step by at most the linear factor the code multiplies an edge length with |
| FlowSteps.EdgeStep | TopologyManager/tm_max_flow.cpp:326-361 | one push keeps delta * g(load / capacity) at or below length * capacity, for every edge on the path |
| FlowSteps.PushRaisesD | TopologyManager/tm_max_flow.cpp:331-373 | a push raises D by exactly e times the amount times the path's length before the push |
| FlowSteps.StepKeepsInv | TopologyManager/tm_max_flow.cpp:304-374 | a push along a route keeps conservation, the per-edge capacity invariant, D as the sum of length * capacity, and that edges of length 1 / capacity or more lie on one path that carries flow |
| FlowNetwork.PathLenIsDot | TopologyManager/tm_max_flow.cpp:25-35 | a simple path's length is a sum over all edges weighted by membership |
| FlowNetwork.Interchange | TopologyManager/tm_max_flow.cpp:159-174 | summing length * load over edges equals summing flow * path length over the paths of all demands |
| FlowNetwork.WeakDuality | TopologyManager/tm_max_flow.cpp:67-76 | for any lengths and any conserved flow with loads at most kappa * capacity, the smallest flow/demand ratio times Alpha is at most kappa times D |
| FlowPhases.DistMonotone | TopologyManager/tm_max_flow.cpp:159-174 | longer edges never shorten a distance |
| FlowPhases.PhaseStep | TopologyManager/tm_max_flow.cpp:304-374 | within a phase D stays between e times the amounts routed times a fixed positive length and e times those amounts times the current distances |
| FlowPhases.PhaseGrowth | TopologyManager/tm_max_flow.cpp:282-378 | a phase multiplies D by at most 1 / (1 - e / beta), for every beta > e with D >= beta * Alpha on all lengths |
| FlowPhases.FeasibleGivesDualBound | TopologyManager/tm_max_flow.cpp:159-174 | the ratio of any flow within the capacities is such a beta |
| FlowRuns.InitialInv | TopologyManager/tm_max_flow.cpp:247-262 | lengths delta / capacity and no flow satisfy the invariant, with D = m * delta |
| FlowRuns.PhaseCloses | TopologyManager/tm_max_flow.cpp:282-378 | after k phases the raw flow of every demand lies between (k - 1) and k times its demand, and a phase that ends below 1 has raised D by a fixed positive amount |
| FlowRuns.CapacityBound | TopologyManager/tm_max_flow.cpp:282-378 | at exit no edge has carried (limit + 1) times its capacity or more, whenever delta * g(limit) >= 1 |
| FlowRuns.ApproximationGuarantee | TopologyManager/tm_max_flow.cpp:227-386 | if some flow within the capacities serves every demand ratio times, then (1 - e / ratio)^k <= m * delta for the k phases made, and everybody was served k - 1 times |
| FlowRuns.ScaledFlowIsFeasible | TopologyManager/tm_max_flow.cpp:282-378 | divided by limit + 1, one more than the source divides by, the flow respects every capacity and serves (k - 1) / (limit + 1) of every demand |
| FlowRuns.RescaleServesAll | TopologyManager/tm_max_flow.cpp:220-225 | rescaling by 1 / lambda serves every demand in full and the tightest one exactly |
| FlowOvershoot.ScaledFlowExceedsCapacity | TopologyManager/tm_max_flow.cpp:380-381 | the rescaling by the logarithm alone can exceed a capacity: one edge, e = 1/2, delta = 1/4 |
| GrowthFactor.LogOfPower | TopologyManager/tm_max_flow.cpp:380 | where 1 / delta is a power of 1 + e the logarithm is its exponent |
| FlowOvershoot.LogOfFour | TopologyManager/tm_max_flow.cpp:380 | the logarithm of this example lies between three and four |
| GrowthFactor.LogBounds | TopologyManager/tm_max_flow.cpp:380 | at the logarithm of 1 / delta to base 1 + e, defined by the fractions below it, the interpolated power has reached 1 / delta, and the whole power below has not passed it |
| FlowOvershoot.ShortStaysWithin | TopologyManager/tm_max_flow.cpp:304-381 | whatever was pushed, an edge whose final length is at most 1 / capacity is within its capacity after rescaling |
| FlowOvershoot.OnlyOnePathOvershoots | TopologyManager/tm_max_flow.cpp:304-381 | all edges filled beyond their capacity lie on one path that carries flow |
| FlowOvershoot.UniformOvershoot | TopologyManager/tm_max_flow.cpp:304-381 | with equal capacities and demands that are multiples of them, an edge is filled beyond its capacity if and only if its final length exceeds 1 / capacity |
| FlowOvershoot.SingleEdgeOvershoot | TopologyManager/tm_max_flow.cpp:304-381 | on a single such edge this happens if and only if 1 / delta is not a power of 1 + e |
| GraphMfModel.RandomShuffle | TopologyManager/tm_max_flow.cpp:294 | the demand order of a phase is some permutation of all demands |
| GraphMfModel.GraphMf.CalcD | TopologyManager/tm_max_flow.cpp:25-35 | returns the sum of length * capacity over all edges |
| GraphMfModel.GraphMf.Bottleneck | TopologyManager/tm_max_flow.cpp:308-324 | returns the smallest capacity on the path the predecessors spell: below or equal to all, attained by one |
| GraphMfModel.GraphMf.StretchPath | TopologyManager/tm_max_flow.cpp:331-361 | stretches exactly the edges on that path, each once, and returns the path source first |
| GraphMfModel.GraphMf.RouteOnce | TopologyManager/tm_max_flow.cpp:304-373 | pushes the smaller of bottleneck and remaining demand along a shortest route and records it in flow and path map |
| GraphMfModel.GraphMf.RouteDemand | TopologyManager/tm_max_flow.cpp:296-375 | terminates, keeps everything that holds between pushes, and below D = 1 has routed exactly the demand |
| GraphMfModel.GraphMf.RunPhase | TopologyManager/tm_max_flow.cpp:293-377 | serves every demand once in shuffled order and keeps what holds between phases |
| GraphMfModel.GraphMf.RoutePhases | TopologyManager/tm_max_flow.cpp:261-378 | terminates with D >= 1, conservation, the capacity invariant and the growth bound; number_flows counts the recorded paths |
| GraphMfModel.GraphMf.CalcLambda | TopologyManager/tm_max_flow.cpp:67-76 | lambda is at most every flow/demand ratio and one of them |
| GraphMfModel.GraphMf.CalcBeta | TopologyManager/tm_max_flow.cpp:159-174 | beta is D over the cost of serving every demand once at the current distances |
| GraphMfModel.LambdaBelowBeta | TopologyManager/tm_max_flow.cpp:382-383 | loads within kappa * capacity make lambda at most kappa * beta |
| GraphMfModel.GraphMf.RescaleDemandsFlows | TopologyManager/tm_max_flow.cpp:185-195 | scales every demand's flow and all its path flows by the same factor |
| GraphMfModel.GraphMf.MaxConcurrentFlow | TopologyManager/tm_max_flow.cpp:227-386 | the whole solver: terminates, conserves flow through rescaling, and its lambda and beta are related by weak duality |
| TrafficEngineering.ProbabilitiesSumToOne | TopologyManager/te_graph_mf.cpp:382-388 | the path probabilities of a demand's entry are positive and sum to 1 |
| TrafficEngineering.IntervalsDisjoint | TopologyManager/te_graph_mf.cpp:428-461 | no draw falls in the cumulative intervals of two paths |
| TrafficEngineering.IntervalIs | TopologyManager/te_graph_mf.cpp:428-461 | a draw from (0, 1] selects a path if and only if it lies in an interval as wide as the path's probability, behind those of the paths before it |
| TrafficEngineering.DemandMap.InsertPaths | TopologyManager/te_graph_mf.cpp:342-391 | the entry of a demand lists exactly its paths with their flows, shares and ORed identifiers |
| TrafficEngineering.DemandMap.UpdatePaths | TopologyManager/te_graph_mf.cpp:338-402 | every demand with a path gets its entry, and only those |
| TrafficEngineering.DemandMap.GetFid | TopologyManager/te_graph_mf.cpp:428-461 | returns the identifier of the path in whose cumulative interval the draw lies; all zero without an entry |
| TrafficEngineering.FidOf | TopologyManager/te_graph_mf.cpp:356-384 | a bit is set if and only if the sink's own identifier or that of one of the path's links has it |
| RvGraph.IdsLabelPaths | src/scope.cc:79-104 | an identifier is carried, and indexed, for a node if and only if it spells a path from a root to that node |
| RvGraph.PrefixClosed | src/localrv.cc:208-272 | every proper prefix of an indexed identifier is indexed as a scope, though requests check only one identifier |
| RvGraph.FatherIsShallower | src/scope.cc:79-104 | the graph is acyclic: a child's longest identifier is longer than any of its father's |
| RvPropagation.LinkKeepsRank | src/localrv.cc:290-297 | if no identifier of the republished scope is a prefix of one of the new father's, the linked graph is acyclic and propagation ends |
| RvPropagation.CyclicLinkNeverSettles | src/localrv.cc:290-297 | otherwise no finite assignment of identifiers completes the linked graph |
| RvPropagation.SettledIdsUnique | src/scope.cc:79-104 | a completed graph carries exactly the identifiers its links imply, however propagation got there |
| RvPropagation.PropagationRestores | src/scope.cc:79-104 | propagating from the changed node restores completeness for all nodes, diamonds included |
| RvHosts.SetHostKeeps | src/scope.cc:42-76 | entering or leaving a host keeps the graph and the mirror between nodes and host records |
| RvHosts.SetHostEntries | src/scope.cc:42-76 | exactly one (role, host, identifier) entry changes |
| RvHosts.NewChildKeepsInv | src/localrv.cc:222-225 | a new child at a free place, with all identifiers its father implies, leaves the graph sound, complete and indexed |
| RvHosts.DropBranchKeeps | src/localrv.cc:551-583 | dropping an unused branch leaves the graph sound and complete and every remaining entry where it was |
| RvHosts.DropNodeKeeps | src/localrv.cc:531-549 | deleting an unused leaf from its only father does so too |
| RvHosts.DropRootKeeps | src/localrv.cc:606-624 | deleting a deserted root scope does so too |
| RvFreshness.AnnounceRefreshes | src/localrv.cc:1270-1287 | announcing an item with its own and its fathers' subscribers makes its last message current and disturbs no other item's |
| RvFreshness.LastMessageIsCurrent | src/localrv.cc:1270-1287 | in every fresh state the last message about a published item exists and states exactly its publishers and its own and its direct fathers' subscribers |
| RvNames.LastMessageNames | src/localrv.cc:1270-1287 | and, for items not collected in misnamed, lists exactly the identifiers of the item |
| RvNames.LinkedNames | src/localrv.cc:290-297 | after a node gained a father, the last message about a published item still lists its identifiers if and only if the item does not lie below that node |
| RvNames.BelowMeansReached | src/scope.cc:79-104 | below a node, by prefixes of identifiers, is the node itself and whatever has a father below it |
| RvNames.DroppedNotNamed | src/localrv.cc:1090-1159 | an item announced before it loses a branch is never announced with the identifiers it is left with |
| RvExamples.StepFour | src/localrv.cc:174-421 | four requests build the graph of the examples, valid after each |
| RvExamples.RepublishMisnames | src/localrv.cc:274-343 | in it, republishing a scope under another leaves the item below with a message that lacks an identifier |
| RvExamples.RepublishCycles | src/localrv.cc:274-343 | and republishing the scope under itself is accepted and never settles |
| RvFreshness.SetHostTouches | src/localrv.cc:358-421 | entering or leaving at a node changes the audience only of the item itself, or for subscribers of a scope of its items |
| RvAcceptance.RootServed | src/localrv.cc:174-206 | publishing or subscribing to a root scope: STRATEGY_MISMATCH if and only if it exists with another strategy, else EXISTS if and only if the host is entered already, else SUCCESS; then exactly its entry is added and a new scope has the name and strategy asked for, otherwise nothing changes |
| RvAcceptance.ScopeServed | src/localrv.cc:208-272 | the same below a father, with each of the six codes returned if and only if what is indexed, the strategies and the entries before say so |
| RvAcceptance.ItemServed | src/localrv.cc:358-421 | the same for an item: served whenever the father is there with the given strategy, the identifier is no scope and the host is not entered yet, and a new item lies below that father |
| RvRequests.LinkEnterEffect | src/localrv.cc:290-321 | a further father keeps every publisher and subscriber entry and adds exactly the new publisher's |
| RvAcceptance.PlanScopeCode | src/localrv.cc:274-343 | republishing a scope ends with the code a scope request has, SCOPE_DOES_NOT_EXIST if and only if the old identifier is the obstacle |
| RvAcceptance.PlanItemCode | src/localrv.cc:423-501 | the same for readvertising an item |
| RvRequests.LeaveItemEffect | src/localrv.cc:640-718 | exactly the leaving host's entry is gone, and deletion drops no remaining entry; or nothing changed |
| RvAcceptance.LeaveItemCode | src/localrv.cc:640-718 | SUCCESS if and only if the item is there, its father has the given strategy and the host is entered; each other code likewise |
| RvAcceptance.LeaveItemNodes | src/localrv.cc:655-692 | leaving an item drops at most that item: every other node stays with its identifiers, fathers, name and strategy |
| RvRequests.LeaveScopeEffect | src/localrv.cc:948-1088 | the same for a scope |
| RvAcceptance.LeaveScopeCode | src/localrv.cc:948-1088 | SUCCESS if and only if the scope is there with the given strategy and the host is entered; each other code likewise |
| RvAcceptance.LeaveScopeNodes | src/localrv.cc:948-1088 | leaving a scope drops at most that scope |
| RvRequests.LeaveItemDrops | src/localrv.cc:655-692 | the identifier stays indexed if and only if somebody else is entered under an identifier of the same branch |
| RvAcceptance.LeaveScopeDrops | src/localrv.cc:528-624 | a scope left by a host stays indexed if and only if something lies below it or others use the branch - for a root, if and only if anybody else is entered for it |
| RvNotices.MembersHold | src/informationitem.cc:99-117 | the publishers and subscribers collected from a node are exactly the hosts entered under one of its identifiers |
| RvNotices.AudienceHolds | src/localrv.cc:704-709 | a host counts as a subscriber of an item if and only if it subscribes to one of its identifiers or to the scope in front of one |
| RvNotices.AnnounceIs | src/localrv.cc:1270-1287 | a message about an item is sent if and only if somebody publishes it and it is node- or domain-local; it is one, lists the identifiers and states who publishes and who subscribes, or node-local whether anybody does |
| RvNotices.NoticeIs | src/localrv.cc:1336-1348 | a notice about a scope goes in one message to exactly the subscribers of its father, if there are any - node-local, if the local proxy is one - and says published or deleted as it should |
| RvNotices.PruneNoticeIs | src/localrv.cc:528-590 | the notice of a deletion is sent if and only if the identifier is gone and the father has subscribers; it says deleted and names everything no longer indexed, or with further fathers the one identifier |
| RvNotices.BriefedTells | src/localrv.cc:754-781 | a new subscriber of a scope learns of every subscope under all its identifiers, and every published item below is announced with what now holds |
| RvNotices.BelowIs | src/localrv.cc:515-524 | the identifiers unpublished along with a scope are those of items that extend one of its identifiers by a fragment |
| RvServing.AnnouncedThenDropped | src/localrv.cc:1090-1159 | after an unsubscription that drops a branch the last message is current if and only if the dropped father's subscribers still count without it |
| RvServing.UnsubscribeLeavesStale | src/localrv.cc:1090-1159 | a concrete graph where it is not |
| LocalRvModel.LocalRv.constructor | src/localrv.cc:18-20 | an empty graph, with nothing sent |
| LocalRvModel.LocalRv.UpdateIDs | src/informationitem.cc:35-50 | adds exactly the identifiers missing over all fathers and all their identifiers, in node and index |
| LocalRvModel.LocalRv.RecursivelyUpdateIDs | src/scope.cc:79-104 | terminates, and completes the scope and everything below it without touching a host entry |
| LocalRvModel.LocalRv.CheckForOtherPubSub | src/scope.cc:107-127 | true if and only if somebody is entered under an identifier owed to that father |
| LocalRvModel.LocalRv.AudienceOf | src/localrv.cc:704-709 | the subscribers of an item and of all its direct fathers |
| LocalRvModel.LocalRv.Rendezvous | src/localrv.cc:1270-1287 | sends a match for domain-local items, start or stop for node-local ones, nothing without a publisher |
| LocalRvModel.LocalRv.NotifySubscribers | src/localrv.cc:1336-1348 | exactly one notice with the given kind, identifiers and subscribers if the local proxy, or for other strategies anybody, subscribes |
| LocalRvModel.LocalRv.EnterRootScope | src/localrv.cc:174-206 | publishing or subscribing at a root: the state and the code RootServed describes, and the messages; a new subscriber of an existing scope is told subscopes and items |
| LocalRvModel.LocalRv.EnterInnerScope | src/localrv.cc:792-879 | the same below a father, as in ScopeServed; a new scope is made known to the father's subscribers under all its identifiers |
| LocalRvModel.LocalRv.EnterInfo | src/localrv.cc:358-421 | advertising or subscribing to an item: the state and the code ItemServed describes; every successful publication is followed by a current announcement |
| LocalRvModel.LocalRv.RepublishInnerScope | src/localrv.cc:274-343 | a further father for a scope: new link, full propagation, the new publisher, and a notice without the old identifier; exactly the items below may be left misnamed |
| LocalRvModel.LocalRv.ReadvertiseInfo | src/localrv.cc:423-501 | a further father for an item, and a current announcement |
| LocalRvModel.LocalRv.PublishScope | src/localrv.cc:157-172 | dispatch by identifier lengths, WRONG_IDS exactly outside the three forms, every other code by what was there before; a new inner scope is told in one message to exactly the father's subscribers if there are any, and no notice says deleted |
| LocalRvModel.LocalRv.PublishInfo | src/localrv.cc:345-356 | dispatch; every code by what was there before, a new item as asked for; on success the item was announced with what now holds |
| LocalRvModel.LocalRv.SubscribeScope | src/localrv.cc:720-731 | dispatch; every code by what was there before; the subscriber's entry is added and nothing else, or nothing changed; what the new subscriber, or the father's, are told |
| LocalRvModel.LocalRv.SubscribeInfo | src/localrv.cc:881-946 | the same for an item, which is announced if it existed |
| LocalRvModel.LocalRv.UnpublishInfo | src/localrv.cc:640-718 | the entry goes, unused nodes or branches go, and what is left is announced again |
| LocalRvModel.LocalRv.UnsubscribeInfo | src/localrv.cc:1090-1159 | announced before pruning; the item becomes misnamed only if it loses a branch, and stale only if the father's subscribers then no longer count |
| LocalRvModel.LocalRv.UnsubscribeScope | src/localrv.cc:948-1088 | all items of the scope are announced, then the scope is pruned with a notice to the father's subscribers; all notices say deleted |
| LocalRvModel.LocalRv.UnpublishScope | src/localrv.cc:503-638 | first the host's publications of every item below under every identifier of the scope, with messages about these items only, then the scope's own, with the notice of its deletion; every code by who published it before |
| LocalRvModel.LocalRv.DropScopeIfUnused | src/localrv.cc:528-590 | a scope that goes is reported as deleted, under all identifiers or with further fathers under the one, to exactly the father's subscribers; nothing is sent if it stays or was a root |
| LocalRvModel.LocalRv.Serve | src/localrv.cc:87-155 | every request does what its kind says - enters or removes the host in its role for the full identifier, or is refused with the code that what was there before gives; it keeps graph, mirror and what is known about last messages, changes no other host's entries, sends notices of publication or of deletion only as its kind allows, and makes stale or misnamed at most an item unsubscribed from or the items below a republished scope |
| ProxyState.NodeIsUnionOfApps | src/localproxy.cc:278-401 | what the forwarded requests tell the rendezvous node is exactly the union of what the local applications do |
| ProxyState.StoredPublication | src/localproxy.cc:280-311 | a publication is forwarded if and only if the machine did not publish the identifier before, and is then recorded with its kind and strategy, by one publisher that is not started; nothing recorded before changes but the publishers |
| ProxyState.RemovedPublication | src/localproxy.cc:314-339 | an unpublication is forwarded if and only if nobody is left; nothing recorded changes but the publishers |
| ProxyState.StoredSubscription | src/localproxy.cc:343-373 | the same as for publications, forwarded under the forwarding strategies only |
| ProxyState.RemovedSubscription | src/localproxy.cc:376-401 | the same as for unpublications |
| ProxyState.ForwardsIf | src/localproxy.cc:280-401 | when a request is forwarded, by strategy and by what was and is recorded: publications under two strategies only, subscriptions under all but three |
| ProxyState.LastKindIsLast | src/localproxy.cc:898-962 | the kind the rendezvous node was last told for an identifier is that of the last such message; Told says it is the kind recorded |
| ProxyState.UnpublishStarted | src/localproxy.cc:314-339 | after an unpublish with publishers left exactly the leaving one is no longer started, so nobody is if and only if nobody was or the leaving one was |
| ProxyState.HandedStillStarted | src/localproxy.cc:894-962 | handing over keeps the number of started publishers of an item |
| LocalProxyModel.LocalProxy.HandleLocalRequest | src/localproxy.cc:227-276 | a request is forwarded exactly if it changes what the machine as a whole publishes or subscribes to; a new entry has the kind and strategy of the request, and existing ones keep theirs |
| LocalProxyModel.LocalProxy.HandleStart | src/localproxy.cc:451-495 | one publisher is started and told so if and only if one of the identifiers is published and none of its publishers was started; the publications read learn all identifiers and the forwarding identifier and keep everything else, all others are unchanged |
| LocalProxyModel.LocalProxy.HandleStop | src/localproxy.cc:511-528 | exactly the started publishers are told to stop; every listed publication loses its forwarding identifier, knows all identifiers, and keeps its publishers, none of them started; every other is unchanged |
| LocalProxyModel.LocalProxy.FindLocalSubscribers | src/localproxy.cc:792-819 | exactly the applications subscribed to an identifier or its scope, each with the last identifier that matches |
| LocalProxyModel.LocalProxy.DropPublication | src/localproxy.cc:902-923 | one publication of a disconnecting application goes; a started item is handed to one remaining publisher, which is told so |
| LocalProxyModel.LocalProxy.DeleteItemPublications | src/localproxy.cc:894-962 | all its item publications go, exactly those nobody else has are forwarded, and one new publisher of each started one is told to start |
| LocalProxyModel.LocalProxy.DeleteItemSubscriptions | src/localproxy.cc:964-993 | the same for item subscriptions |
| LocalProxyModel.LocalProxy.DeleteScopePublications | src/localproxy.cc:995-1040 | the same for scopes, deepest first |
| LocalProxyModel.LocalProxy.DeleteScopeSubscriptions | src/localproxy.cc:1042-1088 | the same for scope subscriptions, deepest first |
| LocalProxyModel.LocalProxy.Disconnect | src/localproxy.cc:212-224 | the application is erased everywhere and nothing else changes kind or strategy; messages go items first, scopes last and deepest first, and each undoes a publication or subscription the rendezvous node knows, of the same kind; exactly the publishers that take over are notified |
| LocalProxyModel.CleanUpUndoes | src/localproxy.cc:894-1088 | over any run, each clean-up message takes back the last publication or subscription of its identifier and calls it a scope or an item as that did |
| LocalProxyModel.StartIs | src/localproxy.cc:451-495 | what a start notification changes, field by field |
| LocalProxyModel.FoundIs | src/localproxy.cc:792-819 | an application is found if and only if it subscribes to an identifier or to that without its last fragment, with the last identifier for which it does |
| LinkIds.Domain.Exists | deployment/network.cpp:69-77 | true if and only if the identifier is in use |
| LinkIds.Domain.CalculateLID | deployment/network.cpp:89-102 | stores an identifier of at most the prescribed number of bits, one more for every width identifiers drawn, that is not in use |
| LinkIds.Domain.AssignLIDs | deployment/network.cpp:104-156 | every node and every connection gets an identifier, no two equal, and nothing else changes |
| LinkIds.AmpleIff | deployment/network.cpp:89-102 | the retry loop can end whatever was drawn if and only if every index is below the number of candidates for it |
| LinkIds.ManyAreAmple | deployment/network.cpp:89-102 | which holds for at least bits * (bits - 1) identifiers |
| LinkIds.SmallDomainSingleBits | deployment/network.cpp:89-102 | and every identifier is a single bit |
| Forwarding.Forwarder.Push | src/forwarder.cc:135-304 | a packet goes once over every matching link except straight back to where it came from, never on if all ones, and up if it carries the node's identifier |
| Forwarding.OutgoingIs | src/forwarder.cc:147-162 | a row is sent over if and only if the packet contains its identifier and, for an arrived packet, it is not all ones and the row does not lead straight back |
| Forwarding.OutgoingOnce | src/forwarder.cc:147-162 | and as often as the table lists it |
| Forwarding.NeverStraightBack | src/forwarder.cc:224-254 | on no route through the domain does a packet cross a link and then the same link backwards |
| Forwarding.NoFalseNegatives | src/forwarder.cc:224-304 | a packet with a path's identifiers crosses every link of it and is delivered at its end |
| Forwarding.AllOnesStops | src/forwarder.cc:224-247 | an all-ones packet gets no further than one link |
| Forwarding.SmallDomainOwnBits | deployment/network.cpp:104-156 | assigned identifiers of a small domain are distinct single bits for all nodes and connections |
| Forwarding.ExactForwarding | src/forwarder.cc:147-162 | then a packet with one path's identifier crosses exactly that path's links and is delivered only at its end |
| Forwarding.PushIsSentOver | src/forwarder.cc:147-162 | a forwarder with a node's connections in its table sends over exactly the connections the domain-wide relation says |
| Forwarding.AssignSmallDomain | deployment/network.cpp:104-156 | assigning identifiers to a small domain makes it forward exactly, for every path |
| PathFids.BestIsNearest | TopologyManager/tm_igraph.cpp:373-391 | the first publisher with the fewest hops is chosen; if none reaches the subscriber the previous choice is carried over |
| PathFids.OutcomeIsServed | TopologyManager/tm_igraph.cpp:358-417 | if all subscribers can be reached every publisher gets exactly the identifiers of those it is nearest to |
| PathFids.EverySubscriberCovered | TopologyManager/tm_igraph.cpp:358-417 | and every subscriber is covered |
| PathFids.OutcomeIsKept | TopologyManager/tm_igraph.cpp:358-417 | for any subscribers, a publisher's identifier has exactly the bits of the subscribers kept for it: those no later subscriber of the same publisher replaces by being followed by an unreachable one; the empty name becomes a key if and only if the first subscriber cannot be reached |
| PathFids.CoveredExactly | TopologyManager/tm_igraph.cpp:406-415 | a reachable subscriber is covered if and only if each of its bits is one of a kept subscriber |
| PathFids.KeptIsCovered | TopologyManager/tm_igraph.cpp:406-415 | so it is covered if nothing replaces it |
| PathFids.SubscriberLost | TopologyManager/tm_igraph.cpp:406-415 | three subscribers, or four, of which the first loses its cover |
| TmIgraphModel.TMIgraph.CalculateFID | TopologyManager/tm_igraph.cpp:564-624 | the identifiers along a shortest path and the destination's own, with the vertex count as hops |
| TmIgraphModel.TMIgraph.CalculateFIDs | TopologyManager/tm_igraph.cpp:358-417 | the outcome the lemmas on publishers and subscribers are about |
| TmIgraphModel.TMIgraph.RebuildIndexes | TopologyManager/tm_igraph.cpp:283-292 | edge ids map to identifiers and identifiers to the first edge with them |
| TmIgraphModel.IndexesInverse | TopologyManager/tm_igraph.cpp:283-292 | the two maps are inverse if and only if the identifiers are distinct |
| TmIgraphModel.TMIgraph.UpdateGraph | TopologyManager/tm_igraph.cpp:211-293 | a link report changes live and failed links as DownReport, UpReport and IdleReport say, and loses no labelled link |
| LinkFailures.DownReport | TopologyManager/tm_igraph.cpp:249-279 | after a failure report on live links exactly the reported pair is no longer joined, in both directions for a physical link, and is remembered with the identifiers it had |
| LinkFailures.UpReport | TopologyManager/tm_igraph.cpp:232-248 | after a recovery report a failed pair is joined again with its identifier and no longer remembered, for a physical link also the way back |
| LinkFailures.IdleReport | TopologyManager/tm_igraph.cpp:232-281 | every other report changes nothing |
| LinkFailures.UpdateConserves | TopologyManager/tm_igraph.cpp:211-293 | every labelled link stays either live or failed, never both and never neither |
| LinkFailures.RunConserves | TopologyManager/tm_igraph.cpp:211-293 | the same over any run of reports about known links |
| LinkFailures.FailThenRecover | TopologyManager/tm_igraph.cpp:232-281 | failing and recovering restores the labelled edges and the failed set |
| EndToEnd.CoveredSubscriberServed | TopologyManager/tm_igraph.cpp:358-417 | what the nearest publisher of a reachable, covered subscriber sends under its identifier is delivered there |
| EndToEnd.EverySubscriberServed | TopologyManager/tm_igraph.cpp:358-417 | if all subscribers can be reached that holds for each of them |
| EndToEnd.ShortestNeverBack | TopologyManager/tm_igraph.cpp:585-590 | a shortest path never goes straight back, so the forwarders' loop check does not stop it |
| Words.ShiftedLeft | src/ba_bitvector.cc:201-203 | bit k of a word shifted left by n is bit k - n of the word |
| Words.ShiftedRight | src/ba_bitvector.cc:208-209 | bit k of a word shifted right by n is bit k + n |
| Words.LowMaskBits | src/ba_bitvector.cc:104-111 | the mask of clear_last has exactly the low bits |
| BaBitvectorModel.EqualBitsEqualWords | src/ba_bitvector.hh:158-165 | with zero tails comparing words is comparing bits |
| BaBitvectorModel.StaleTailBreaksEquality | src/ba_bitvector.hh:158-165 | without them it is not |
| BaBitvectorModel.BABitvector.constructor | src/ba_bitvector.hh:375-381 | n false bits |
| BaBitvectorModel.BABitvector.Get | src/ba_bitvector.hh:413-417 | the bit at a position |
| BaBitvectorModel.BABitvector.Clear | src/ba_bitvector.cc:71-75 | all bits false |
| BaBitvectorModel.BABitvector.Zero | src/ba_bitvector.cc:78-84 | true if and only if no bit is set |
| BaBitvectorModel.BABitvector.ResizeToMax | src/ba_bitvector.cc:87-101 | words in use are kept, new ones are zero |
| BaBitvectorModel.BABitvector.Resize | src/ba_bitvector.hh:399-405 | growing appends false bits; after shrinking the tail is zero if and only if the lost bits in the kept words were |
| BaBitvectorModel.ClearedBits | src/ba_bitvector.cc:104-111 | clear_last keeps the bits of the vector and clears the others of the last word |
| BaBitvectorModel.BABitvector.Assign | src/ba_bitvector.cc:135-146 | n equal bits; the tail stays zero if and only if n > 32 or the second word was zero |
| BaBitvectorModel.BABitvector.Negate | src/ba_bitvector.cc:149-155 | every bit flipped, tail zero |
| BaBitvectorModel.BABitvector.And | src/ba_bitvector.cc:158-165 | bitwise and of equal sizes |
| BaBitvectorModel.BABitvector.Or | src/ba_bitvector.cc:168-176 | bitwise or, growing to the longer operand |
| BaBitvectorModel.BABitvector.Xor | src/ba_bitvector.cc:179-186 | bitwise exclusive or |
| BaBitvectorModel.BABitvector.OffsetOr | src/ba_bitvector.cc:189-215 | ors the operand's bits in from the offset on, tail zero |
| BaBitvectorModel.FullBit | src/ba_bitvector.cc:201-214 | the two shifted words together give each bit of the operand exactly at its offset |
| BaBitvectorModel.BABitvector.OrWithDifference | src/ba_bitvector.cc:218-229 | ors and reports exactly the new bits; the tail of the report is zero if and only if its bits beyond the words in use were |
| BaBitvectorModel.BABitvector.NonzeroIntersection | src/ba_bitvector.cc:232-241 | true if and only if a common bit is set in both |
| BaBitvectorModel.BABitvector.Equals | src/ba_bitvector.hh:158-165 | true if and only if the bit sequences are equal |
| BaBitvectorModel.BABitvector.ForceBit | src/ba_bitvector.hh:419-425 | sets one bit, growing with false bits if needed |
| WireFormats.AllocationExact | src/localrv.cc:1178-1186 | the request's allocated length is what is written if and only if the identifiers have at most 255 bytes in all |
| WireFormats.RequestTMAssistance | src/localrv.cc:1162-1219 | the packet is filled completely with type, strategy, counts, node identifiers and identifiers |
| WireFormats.RequestLayout | src/localrv.cc:1162-1219 | where each of them is in the packet |
| WireFormats.HandleRequest | TopologyManager/tm.cpp:107-136 | the topology manager reads exactly the type, the strategy, the publishers and subscribers and finds where the identifiers start |
| WireFormats.Respond | TopologyManager/tm.cpp:169-211 | the response is filled completely with type, received identifiers and forwarding identifier |
| WireFormats.ReadNotification | src/localproxy.cc:403-466 | the proxy reads back exactly the identifiers and the forwarding identifier |
| WireFormats.RoundTrip | src/localrv.cc:1162-1219 | what the topology manager relays of an encoded request decodes to the identifiers and the forwarding identifier |
| WireFormats.Deliver | TopologyManager/tm.cpp:114-211 | the three programs one after the other: the proxy ends up with the identifiers the rendezvous node had |
| WireFormats.LocalAllocationExact | src/localrv.cc:1289-1334 | a local start message is filled completely if and only if every identifier is shorter than 256 bytes |

## Left out

- Sockets, netlink, Click scheduling, packet annotations, IP, UDP and MAC header bytes and checksums: only arrival and output links remain.
- The graph libraries' algorithms: shortest paths enter as functions with the contract "a simple path of minimum length", edge lookup and deletion as loops over the edge list.
- Floating-point rounding: flows and lengths are reals; delta and the rescaling factor are parameters, since they are computed with real powers and logarithms.
- Random numbers: the demand order, the link identifiers, the draw and the order of sets are arbitrary choices or parameters.
- gamma, assign_gflow and sp_concurrent_flow: the load direction of the former and the flow figures of the latter are not consistent with the stored paths, so nothing is claimed about them; prescaling runs the solver modelled here on scaled demands.
- Measured demands and their conversion in update_paths: external measurements.
- Quality-of-service planes, weighted paths, resiliency path vectors, the metadata cache and the multilayer mode.
- Publishing data to local and remote subscribers beyond finding the local ones, and scope notifications to applications.
- The constructor that copies, the assignment operator, swap and the value-returning operators of the bit vector: copies followed by the operations modelled here.
- Deployment file formats, remote copying and starting, the client library and the sample programs.
- Freeing memory, printing and logging; iterators over containers that shrink during the iteration run over snapshots.
- RvGraph names: a node keeps the fragment all its identifiers end with as a field, where the source reads it off the first identifier.
- LocalRvModel.LocalRv.RepublishInnerScope: requires that the scope does not come below itself, which the source does not check; without it propagation does not end (CyclicLinkNeverSettles).
- LocalRvModel.LocalRv.PublishScope: has the same requirement for a republication.
- LocalRvModel.LocalRv.UnpublishScope: unpublishing and unsubscribing take an identifier of one fragment, as the client library sends; the order in which items are unpublished, and thereby of the messages, is left open.
- LocalRvModel.LocalRv.Serve: children and fathers may have different strategies after a republication, so no claim is made about strategies.
- ProxyState: the forwarding identifier towards the rendezvous node, which follows from the strategy, is not modelled.
- LocalProxyModel.LocalProxy.HandleLocalRequest: requires an identifier of at least one fragment; an empty one under an empty prefix would never be cleaned up.
- LinkIds.Domain.CalculateLID: the retry loop is replaced by its outcome, an unused identifier, and requires that there is one; where there is none the source does not end.
- LinkIds.Domain.AssignLIDs: has that requirement for every index; AmpleIff says exactly when it is met, and ManyAreAmple that it is up to bits * (bits - 1) identifiers.
- Forwarding.NoFalseNegatives: assumes that an interface address belongs to one node.
- PathFids.OutcomeIsKept: for the empty name the source reads past the end of its result map before it stores the entry; the model only stores it.
- TmIgraphModel.TMIgraph.UpdateGraph: excludes reports about unknown links, like UpdateConserves.
- LinkFailures.UpdateConserves: reports about unknown links are excluded, since the source looks them up without a check; labels are pairs instead of joined strings.
- BaBitvectorModel.BABitvector.And: operands do not share storage with the vector itself; the same holds for the other operations on two vectors.
- BaBitvectorModel.BABitvector.OffsetOr: requires a non-empty operand; an empty one at a word boundary makes the source touch a word beyond the vector.
- BaBitvectorModel.BABitvector.Or: requires that the operand is not shorter; for a shorter one the source reads beyond its words.
- WireFormats.RequestTMAssistance: the fixed header in front of the payload is not modelled, and counts and lengths fit a byte; beyond 255 identifier bytes the packet is too short (AllocationExact).
