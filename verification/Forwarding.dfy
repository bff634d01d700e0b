/**
 Forwarding by link identifiers: what one forwarder does with a packet, and which links a packet
 crosses on its way through the whole domain.
 */
module Forwarding {
  import opened LinkIds

  /** A row of the forwarding table. */
  datatype Entry = Entry(src: Addr, dst: Addr, port: nat, lid: Fid)

  /** Where a packet comes from: the node itself, or a link with the addresses at its ends. */
  datatype Arrival = FromNode | FromNetwork(src: Addr, dst: Addr)

  predicate AllOnes(fid: Fid, width: nat) {
    Positions(width) <= fid
  }

  /** The entry's identifier is contained in the packet's, and the packet did not come over that link's reverse. */
  predicate Passes(fe: Entry, fid: Fid, arrival: Arrival, width: nat) {
    && fe.lid <= fid
    && (arrival.FromNetwork? ==> !AllOnes(fid, width) && !(arrival.src == fe.dst && arrival.dst == fe.src))
  }

  function Outgoing(table: seq<Entry>, fid: Fid, arrival: Arrival, width: nat): (out: seq<Entry>)
    ensures forall fe :: fe in out <==> fe in table && Passes(fe, fid, arrival, width)
  {
    if table == [] then []
    else
      var fe := table[|table| - 1];
      Outgoing(table[..|table| - 1], fid, arrival, width) + if Passes(fe, fid, arrival, width) then [fe] else []
  }

  lemma OutgoingMore(table: seq<Entry>, i: nat, fid: Fid, arrival: Arrival, width: nat)
    requires i < |table|
    ensures Outgoing(table[..i + 1], fid, arrival, width) ==
      Outgoing(table[..i], fid, arrival, width) + if Passes(table[i], fid, arrival, width) then [table[i]] else []
  {
    assert table[..i + 1][..i] == table[..i];
  }

  /** What goes out: the rows whose identifier the packet contains; of an arrived packet none over the link it came by, and
      none at all if it is all ones. */
  lemma OutgoingIs(table: seq<Entry>, fid: Fid, arrival: Arrival, width: nat, fe: Entry)
    ensures fe in Outgoing(table, fid, arrival, width) ==> fe in table && fe.lid <= fid
    ensures arrival.FromNode? && fe in table && fe.lid <= fid ==> fe in Outgoing(table, fid, arrival, width)
    ensures arrival.FromNetwork? && fe in Outgoing(table, fid, arrival, width) ==>
      !AllOnes(fid, width) && !(fe.src == arrival.dst && fe.dst == arrival.src)
    ensures arrival.FromNetwork? && fe in table && fe.lid <= fid && !AllOnes(fid, width) && (fe.src != arrival.dst || fe.dst != arrival.src) ==>
      fe in Outgoing(table, fid, arrival, width)
  {
  }

  /** Each of those goes out as often as the table lists it. */
  lemma {:induction false} OutgoingOnce(table: seq<Entry>, fid: Fid, arrival: Arrival, width: nat, fe: Entry)
    ensures multiset(Outgoing(table, fid, arrival, width))[fe] ==
      if fe in Outgoing(table, fid, arrival, width) then multiset(table)[fe] else 0
  {
    if table != [] {
      var n := |table| - 1;
      OutgoingOnce(table[..n], fid, arrival, width, fe);
      assert table == table[..n] + [table[n]];
      OutgoingIs(table, fid, arrival, width, fe);
      OutgoingIs(table[..n], fid, arrival, width, fe);
    }
  }

  class Forwarder {
    const width: nat
    const iLid: Fid
    const fwTable: seq<Entry>
    /** What has been put on the output links so far. */
    var sent: seq<Entry>
    /** How many packets have been handed to the node. */
    var delivered: nat

    constructor (width: nat, iLid: Fid, fwTable: seq<Entry>)
      ensures this.width == width && this.iLid == iLid && this.fwTable == fwTable && sent == [] && delivered == 0
    {
      this.width, this.iLid, this.fwTable, sent, delivered := width, iLid, fwTable, [], 0;
    }

    /** The packet goes out once over every matching link, and up to the node if it carries its identifier. */
    method Push(fid: Fid, arrival: Arrival)
      modifies this
      ensures sent == old(sent) + Outgoing(fwTable, fid, arrival, width)
      ensures arrival.FromNetwork? ==>
        forall fe :: fe in sent[|old(sent)|..] ==> !(fe.src == arrival.dst && fe.dst == arrival.src)
      ensures delivered == old(delivered) + if arrival.FromNetwork? && iLid <= fid then 1 else 0
    {
      var outLinks: seq<Entry> := [];
      var pushLocally := false;
      if arrival.FromNode? {
        var i := 0;
        assert fwTable[..0] == [];
        while i < |fwTable|
          invariant 0 <= i <= |fwTable| && outLinks == Outgoing(fwTable[..i], fid, arrival, width)
          invariant sent == old(sent) && delivered == old(delivered)
        {
          OutgoingMore(fwTable, i, fid, arrival, width);
          var fe := fwTable[i];
          if fid * fe.lid == fe.lid {
            outLinks := outLinks + [fe];
          }
          i := i + 1;
        }
        assert fwTable[..i] == fwTable;
        Send(outLinks);
      } else {
        var testFid := Positions(width) - fid;
        if testFid != {} {
          outLinks := MatchArrived(fid, arrival);
        } else {
          NothingPasses(fwTable, fid, arrival, width);
        }
        if fid * iLid == iLid {
          pushLocally := true;
        }
        assert outLinks == Outgoing(fwTable, fid, arrival, width);
        if testFid != {} {
          Send(outLinks);
        }
        if pushLocally {
          delivered := delivered + 1;
        }
      }
    }

    /** The matching entries, without the one that would send the packet back. */
    method MatchArrived(fid: Fid, arrival: Arrival) returns (outLinks: seq<Entry>)
      requires arrival.FromNetwork? && !AllOnes(fid, width)
      ensures outLinks == Outgoing(fwTable, fid, arrival, width)
    {
      outLinks := [];
      var i := 0;
      assert fwTable[..0] == [];
      while i < |fwTable|
        invariant 0 <= i <= |fwTable| && outLinks == Outgoing(fwTable[..i], fid, arrival, width)
      {
        OutgoingMore(fwTable, i, fid, arrival, width);
        var fe := fwTable[i];
        i := i + 1;
        if fid * fe.lid == fe.lid {
          if arrival.src == fe.dst && arrival.dst == fe.src {
            continue;
          }
          outLinks := outLinks + [fe];
        }
      }
      assert fwTable[..i] == fwTable;
    }

    method Send(outLinks: seq<Entry>)
      modifies this`sent
      ensures sent == old(sent) + outLinks
    {
      var i := 0;
      while i < |outLinks|
        invariant 0 <= i <= |outLinks| && sent == old(sent) + outLinks[..i]
      {
        sent := sent + [outLinks[i]];
        i := i + 1;
      }
    }
  }

  lemma {:induction false} NothingPasses(table: seq<Entry>, fid: Fid, arrival: Arrival, width: nat)
    requires arrival.FromNetwork? && AllOnes(fid, width)
    ensures Outgoing(table, fid, arrival, width) == []
  {
    if table != [] {
      NothingPasses(table[..|table| - 1], fid, arrival, width);
    }
  }

  // ---------- the whole domain ----------

  /** A link of the domain: connection conn of node. */
  datatype Hop = Hop(node: nat, conn: nat)

  predicate InNet(nodes: seq<NetworkNode>, h: Hop) {
    h.node < |nodes| && h.conn < |nodes[h.node].connections|
  }

  function Conn(nodes: seq<NetworkNode>, h: Hop): Connection
    requires InNet(nodes, h)
  {
    nodes[h.node].connections[h.conn]
  }

  /** Connections start at the node that lists them, and an address belongs to one node. */
  ghost predicate WellFormed(nodes: seq<NetworkNode>) {
    && (forall h :: InNet(nodes, h) ==> Conn(nodes, h).src == h.node && Conn(nodes, h).dst < |nodes|)
    && (forall h, h' :: InNet(nodes, h) && InNet(nodes, h') && Conn(nodes, h).srcAddr == Conn(nodes, h').dstAddr ==>
          Conn(nodes, h).src == Conn(nodes, h').dst)
  }

  function EntryOf(c: Connection, port: nat): Entry {
    Entry(c.srcAddr, c.dstAddr, port, c.lid)
  }

  /** The forwarder of h's start node sends an arrived or injected packet over h. */
  ghost predicate SentOver(nodes: seq<NetworkNode>, fid: Fid, arrival: Arrival, h: Hop, width: nat)
    requires InNet(nodes, h)
  {
    Passes(EntryOf(Conn(nodes, h), 0), fid, arrival, width)
  }

  /** A forwarder's table for node v: one row for each of its connections, in order. */
  ghost predicate TableFor(table: seq<Entry>, nodes: seq<NetworkNode>, v: nat) {
    && v < |nodes| && |table| == |nodes[v].connections|
    && forall j :: 0 <= j < |table| ==> table[j] == EntryOf(nodes[v].connections[j], table[j].port)
  }

  /** What such a forwarder puts on its output links are the rows of the connections the packet is sent over. */
  lemma PushIsSentOver(table: seq<Entry>, nodes: seq<NetworkNode>, v: nat, fid: Fid, arrival: Arrival, width: nat)
    requires TableFor(table, nodes, v)
    ensures forall fe :: fe in Outgoing(table, fid, arrival, width) <==>
      exists j :: 0 <= j < |table| && fe == table[j] && SentOver(nodes, fid, arrival, Hop(v, j), width)
  {
    forall j | 0 <= j < |table| ensures Passes(table[j], fid, arrival, width) == SentOver(nodes, fid, arrival, Hop(v, j), width) {
      assert Conn(nodes, Hop(v, j)) == nodes[v].connections[j];
    }
  }

  function Over(c: Connection): Arrival {
    FromNetwork(c.srcAddr, c.dstAddr)
  }

  ghost predicate InNetAll(nodes: seq<NetworkNode>, route: seq<Hop>) {
    forall i :: 0 <= i < |route| ==> InNet(nodes, route[i])
  }

  /** Injected at node s, the packet crosses the links of the route one after the other. */
  ghost predicate Travels(nodes: seq<NetworkNode>, fid: Fid, s: nat, route: seq<Hop>, width: nat) {
    && route != [] && InNetAll(nodes, route)
    && Conn(nodes, route[0]).src == s && SentOver(nodes, fid, FromNode, route[0], width)
    && (forall i :: 0 <= i < |route| - 1 ==> Relayed(nodes, fid, route, i, width))
  }

  ghost predicate Relayed(nodes: seq<NetworkNode>, fid: Fid, route: seq<Hop>, i: nat, width: nat)
    requires i + 1 < |route| && InNetAll(nodes, route)
  {
    && Conn(nodes, route[i + 1]).src == Conn(nodes, route[i]).dst
    && SentOver(nodes, fid, Over(Conn(nodes, route[i])), route[i + 1], width)
  }

  ghost predicate Crosses(nodes: seq<NetworkNode>, fid: Fid, s: nat, h: Hop, width: nat) {
    exists route :: Travels(nodes, fid, s, route, width) && route[|route| - 1] == h
  }

  /** The packet reaches v over some link and is pushed to the node there. */
  ghost predicate DeliveredAt(nodes: seq<NetworkNode>, fid: Fid, s: nat, v: nat, width: nat) {
    && v < |nodes| && nodes[v].iLid <= fid
    && exists h :: Crosses(nodes, fid, s, h, width) && InNet(nodes, h) && Conn(nodes, h).dst == v
  }

  /** A path of links from s to t that never goes straight back. */
  ghost predicate Path(nodes: seq<NetworkNode>, path: seq<Hop>, s: nat, t: nat) {
    && path != [] && InNetAll(nodes, path)
    && Conn(nodes, path[0]).src == s && Conn(nodes, path[|path| - 1]).dst == t
    && forall i :: 0 <= i < |path| - 1 ==> Onward(nodes, path, i)
  }

  ghost predicate Onward(nodes: seq<NetworkNode>, path: seq<Hop>, i: nat)
    requires i + 1 < |path| && InNetAll(nodes, path)
  {
    && Conn(nodes, path[i + 1]).src == Conn(nodes, path[i]).dst
    && Conn(nodes, path[i + 1]).dst != Conn(nodes, path[i]).src
  }

  /** The identifiers of all links of the path, ORed together. */
  function PathLids(nodes: seq<NetworkNode>, path: seq<Hop>): (fid: Fid)
    requires forall i :: 0 <= i < |path| ==> InNet(nodes, path[i])
    ensures forall i :: 0 <= i < |path| ==> Conn(nodes, path[i]).lid <= fid
    ensures forall b :: b in fid ==> exists i :: 0 <= i < |path| && b in Conn(nodes, path[i]).lid
  {
    if path == [] then {}
    else
      var fid := PathLids(nodes, path[..|path| - 1]) + Conn(nodes, path[|path| - 1]).lid;
      assert forall i :: 0 <= i < |path| - 1 ==> Conn(nodes, path[i]).lid <= PathLids(nodes, path[..|path| - 1]) by {
        assert forall i :: 0 <= i < |path| - 1 ==> path[..|path| - 1][i] == path[i];
      }
      fid
  }

  /** What has crossed a route has crossed its first part. */
  lemma TravelsPart(nodes: seq<NetworkNode>, fid: Fid, s: nat, route: seq<Hop>, i: nat, width: nat)
    requires Travels(nodes, fid, s, route, width) && i < |route|
    ensures Travels(nodes, fid, s, route[..i + 1], width) && Crosses(nodes, fid, s, route[i], width)
  {
    hide SentOver, Conn;
    var part := route[..i + 1];
    forall k | 0 <= k < |part| - 1 ensures Relayed(nodes, fid, part, k, width) {
      assert Relayed(nodes, fid, route, k, width);
    }
    assert Travels(nodes, fid, s, part, width) && part[|part| - 1] == route[i];
  }

  lemma PathTravels(nodes: seq<NetworkNode>, fid: Fid, s: nat, t: nat, path: seq<Hop>, width: nat)
    requires WellFormed(nodes) && Path(nodes, path, s, t) && (|path| == 1 || !AllOnes(fid, width))
    requires PathLids(nodes, path) <= fid
    ensures Travels(nodes, fid, s, path, width)
  {
    hide AllOnes, PathLids;
    forall i | 0 <= i < |path| ensures Conn(nodes, path[i]).lid <= fid {
    }
    forall i | 0 <= i < |path| - 1 ensures Relayed(nodes, fid, path, i, width) {
      assert Onward(nodes, path, i);
    }
  }

  /** No false negatives: a packet that carries a path's identifiers crosses every link of the path and is delivered at its end. */
  lemma NoFalseNegatives(nodes: seq<NetworkNode>, fid: Fid, s: nat, t: nat, path: seq<Hop>, width: nat)
    requires WellFormed(nodes) && Path(nodes, path, s, t) && (|path| == 1 || !AllOnes(fid, width))
    requires PathLids(nodes, path) <= fid && nodes[t].iLid <= fid
    ensures Travels(nodes, fid, s, path, width)
    ensures forall i :: 0 <= i < |path| ==> Crosses(nodes, fid, s, path[i], width)
    ensures DeliveredAt(nodes, fid, s, t, width)
  {
    hide AllOnes, PathLids, Travels, Crosses;
    PathTravels(nodes, fid, s, t, path, width);
    forall i | 0 <= i < |path| ensures Crosses(nodes, fid, s, path[i], width) {
      TravelsPart(nodes, fid, s, path, i, width);
    }
    assert Crosses(nodes, fid, s, path[|path| - 1], width);
  }

  /** No packet ever goes straight back over a link: the loop check. */
  lemma NeverStraightBack(nodes: seq<NetworkNode>, fid: Fid, s: nat, route: seq<Hop>, width: nat, i: nat)
    requires Travels(nodes, fid, s, route, width) && i + 1 < |route|
    ensures InNet(nodes, route[i]) && InNet(nodes, route[i + 1])
    ensures var last, next := Conn(nodes, route[i]), Conn(nodes, route[i + 1]);
      !(next.srcAddr == last.dstAddr && next.dstAddr == last.srcAddr)
  {
    assert Relayed(nodes, fid, route, i, width);
  }

  /** With one packet of all ones, nothing gets further than one link. */
  lemma AllOnesStops(nodes: seq<NetworkNode>, fid: Fid, s: nat, route: seq<Hop>, width: nat)
    requires AllOnes(fid, width) && Travels(nodes, fid, s, route, width)
    ensures |route| == 1
  {
    assert |route| > 1 ==> Relayed(nodes, fid, route, 0, width);
  }

  // ---------- small domains ----------

  /** Every identifier is one bit of its own. */
  ghost predicate OwnBits(nodes: seq<NetworkNode>, width: nat) {
    && (forall v :: 0 <= v < |nodes| ==> SingleOf(nodes[v].iLid, width))
    && (forall h :: InNet(nodes, h) ==> SingleOf(Conn(nodes, h).lid, width))
    && (forall v, w :: 0 <= v < |nodes| && 0 <= w < |nodes| && v != w ==> nodes[v].iLid != nodes[w].iLid)
    && (forall h, g :: InNet(nodes, h) && InNet(nodes, g) && h != g ==> Conn(nodes, h).lid != Conn(nodes, g).lid)
    && (forall h, v :: InNet(nodes, h) && 0 <= v < |nodes| ==> Conn(nodes, h).lid != nodes[v].iLid)
  }

  /** Where an identifier stands in the list of all identifiers. */
  function Offset(nodes: seq<NetworkNode>, v: nat): nat
    requires v <= |nodes|
  {
    |AllLids(nodes[..v])|
  }

  lemma {:induction false} OffsetGrows(nodes: seq<NetworkNode>, v: nat, w: nat)
    requires v < w <= |nodes|
    ensures Offset(nodes, v) + 1 + |nodes[v].connections| <= Offset(nodes, w) <= |AllLids(nodes)|
    decreases w
  {
    PrefixLids(nodes, w - 1);
    if v < w - 1 {
      OffsetGrows(nodes, v, w - 1);
    }
  }

  lemma {:induction false} LidsInPlace(nodes: seq<NetworkNode>, v: nat)
    requires v < |nodes|
    ensures Offset(nodes, v) + 1 + |nodes[v].connections| <= |AllLids(nodes)|
    ensures AllLids(nodes)[Offset(nodes, v)] == nodes[v].iLid
    ensures forall j :: 0 <= j < |nodes[v].connections| ==> AllLids(nodes)[Offset(nodes, v) + 1 + j] == nodes[v].connections[j].lid
    decreases |nodes|
  {
    var n := |nodes| - 1;
    OffsetGrows(nodes, v, v + 1);
    if v == n {
      assert nodes[..n + 1] == nodes;
    } else {
      var front := nodes[..n];
      LidsInPlace(front, v);
      assert front[..v] == nodes[..v];
    }
  }

  /** What assigning identifiers gives a domain with no more of them than bits. */
  lemma SmallDomainOwnBits(nodes: seq<NetworkNode>, width: nat)
    requires width > 0 && Drawn(AllLids(nodes), width) && |AllLids(nodes)| <= width
    ensures OwnBits(nodes, width)
  {
    hide AllLids, Offset, SingleOf;
    var lids := AllLids(nodes);
    SmallDomainSingleBits(lids, width);
    forall v | 0 <= v < |nodes|
      ensures Offset(nodes, v) + 1 + |nodes[v].connections| <= |lids| && lids[Offset(nodes, v)] == nodes[v].iLid
      ensures forall j :: 0 <= j < |nodes[v].connections| ==> lids[Offset(nodes, v) + 1 + j] == nodes[v].connections[j].lid
    {
      LidsInPlace(nodes, v);
    }
    forall v, w | 0 <= v < w < |nodes| ensures Offset(nodes, v) + 1 + |nodes[v].connections| <= Offset(nodes, w) {
      OffsetGrows(nodes, v, w);
    }
    forall h | InNet(nodes, h) ensures lids[Offset(nodes, h.node) + 1 + h.conn] == Conn(nodes, h).lid {
    }
  }

  lemma OwnBitInPath(nodes: seq<NetworkNode>, path: seq<Hop>, t: nat, h: Hop, width: nat)
    requires OwnBits(nodes, width) && InNetAll(nodes, path) && InNet(nodes, h) && t < |nodes|
    requires Conn(nodes, h).lid <= PathLids(nodes, path) + nodes[t].iLid
    ensures h in path
  {
    var b: nat :| b < width && IsBit(Conn(nodes, h).lid, b);
    assert SingleOf(nodes[t].iLid, width);
    var c: nat :| c < width && IsBit(nodes[t].iLid, c);
    assert b in PathLids(nodes, path);
    var i :| 0 <= i < |path| && b in Conn(nodes, path[i]).lid;
    assert SingleOf(Conn(nodes, path[i]).lid, width);
  }

  lemma OwnNodeBit(nodes: seq<NetworkNode>, path: seq<Hop>, t: nat, v: nat, width: nat)
    requires OwnBits(nodes, width) && InNetAll(nodes, path) && t < |nodes| && v < |nodes|
    requires nodes[v].iLid <= PathLids(nodes, path) + nodes[t].iLid
    ensures v == t
  {
    assert SingleOf(nodes[v].iLid, width) && SingleOf(nodes[t].iLid, width);
    var b: nat :| b < width && IsBit(nodes[v].iLid, b);
    forall i | 0 <= i < |path| ensures b !in Conn(nodes, path[i]).lid {
      assert SingleOf(Conn(nodes, path[i]).lid, width);
    }
    assert b !in PathLids(nodes, path);
  }

  /** The outcome of exact forwarding, for one path. */
  ghost predicate ForwardsExactly(nodes: seq<NetworkNode>, s: nat, t: nat, path: seq<Hop>, width: nat)
    requires Path(nodes, path, s, t) && t < |nodes|
  {
    var fid := PathLids(nodes, path) + nodes[t].iLid;
    && (forall h :: InNet(nodes, h) ==> (Crosses(nodes, fid, s, h, width) <==> h in path))
    && (forall v :: 0 <= v < |nodes| ==> (DeliveredAt(nodes, fid, s, v, width) <==> v == t))
  }

  /** Exact forwarding: with bits of their own, a packet crosses exactly its path's links and is delivered only at its end. */
  lemma ExactForwarding(nodes: seq<NetworkNode>, s: nat, t: nat, path: seq<Hop>, width: nat)
    requires WellFormed(nodes) && OwnBits(nodes, width) && Path(nodes, path, s, t) && s != t
    ensures t < |nodes| && ForwardsExactly(nodes, s, t, path, width)
  {
    hide PathLids, OwnBits, AllOnes;
    var fid := PathLids(nodes, path) + nodes[t].iLid;
    assert s < |nodes| && t < |nodes|;
    NotAllOnes(nodes, path, s, t, width);
    NoFalseNegatives(nodes, fid, s, t, path, width);
    forall h | InNet(nodes, h) ensures Crosses(nodes, fid, s, h, width) <==> h in path {
      if Crosses(nodes, fid, s, h, width) {
        var route :| Travels(nodes, fid, s, route, width) && route[|route| - 1] == h;
        LastPasses(nodes, fid, s, route, width);
        OwnBitInPath(nodes, path, t, h, width);
      }
    }
    forall v | 0 <= v < |nodes| ensures DeliveredAt(nodes, fid, s, v, width) <==> v == t {
      if DeliveredAt(nodes, fid, s, v, width) {
        OwnNodeBit(nodes, path, t, v, width);
      }
    }
  }

  lemma LastPasses(nodes: seq<NetworkNode>, fid: Fid, s: nat, route: seq<Hop>, width: nat)
    requires Travels(nodes, fid, s, route, width)
    ensures Conn(nodes, route[|route| - 1]).lid <= fid
  {
    if |route| > 1 {
      assert Relayed(nodes, fid, route, |route| - 2, width);
    }
  }

  lemma NotAllOnes(nodes: seq<NetworkNode>, path: seq<Hop>, s: nat, t: nat, width: nat)
    requires OwnBits(nodes, width) && InNetAll(nodes, path) && s < |nodes| && t < |nodes| && s != t
    ensures !AllOnes(PathLids(nodes, path) + nodes[t].iLid, width)
  {
    var fid := PathLids(nodes, path) + nodes[t].iLid;
    assert SingleOf(nodes[s].iLid, width);
    var b: nat :| b < width && IsBit(nodes[s].iLid, b);
    if AllOnes(fid, width) {
      assert b in Positions(width);
      OwnNodeBit(nodes, path, t, s, width);
    }
  }

  lemma SameShapeWellFormed(nodes: seq<NetworkNode>, nodes': seq<NetworkNode>)
    requires WellFormed(nodes) && SameShape(nodes, nodes')
    ensures WellFormed(nodes')
  {
    forall h | InNet(nodes', h)
      ensures InNet(nodes, h) && Conn(nodes', h) == Conn(nodes, h).(lid := Conn(nodes', h).lid)
    {
      assert SameNodeShape(nodes[h.node], nodes'[h.node]);
    }
  }

  /** A domain with no more nodes and connections than bits forwards exactly once its identifiers are assigned. */
  method AssignSmallDomain(domain: Domain)
    requires domain.width > 0 && |AllLids(domain.nodes)| <= domain.width && WellFormed(domain.nodes)
    modifies domain`nodes
    ensures SameShape(old(domain.nodes), domain.nodes) && OwnBits(domain.nodes, domain.width)
    ensures forall s: nat, t: nat, path :: Path(domain.nodes, path, s, t) && s != t ==>
      t < |domain.nodes| && ForwardsExactly(domain.nodes, s, t, path, domain.width)
  {
    hide OwnBits, SameShape, Path, ForwardsExactly, Drawn, AllLids;
    ManyAreAmple(|AllLids(domain.nodes)|, domain.width);
    domain.AssignLIDs();
    SameShapeWellFormed(old(domain.nodes), domain.nodes);
    SmallDomainOwnBits(domain.nodes, domain.width);
    forall s: nat, t: nat, path | Path(domain.nodes, path, s, t) && s != t
      ensures t < |domain.nodes| && ForwardsExactly(domain.nodes, s, t, path, domain.width)
    {
      PathEnds(domain.nodes, path, s, t);
      ExactForwarding(domain.nodes, s, t, path, domain.width);
    }
  }

  lemma PathEnds(nodes: seq<NetworkNode>, path: seq<Hop>, s: nat, t: nat)
    requires WellFormed(nodes) && Path(nodes, path, s, t)
    ensures s < |nodes| && t < |nodes|
  {
  }
}
