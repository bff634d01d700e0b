/**
 Link identifiers: how the deployment tool draws one for every node and every connection.  A vector
 of fid_len * 8 bits is the set of its one bits.
 */
module LinkIds {
  type Fid = set<nat>

  type Addr = nat

  /** A link from one node to another, with the addresses of the interfaces at its two ends. */
  datatype Connection = Connection(src: nat, dst: nat, srcAddr: Addr, dstAddr: Addr, lid: Fid)

  datatype NetworkNode = NetworkNode(name: nat, iLid: Fid, connections: seq<Connection>)

  /** What bits draws of a random position can give. */
  predicate Candidate(lid: Fid, bits: nat, width: nat) {
    lid != {} && |lid| <= bits && forall b :: b in lid ==> b < width
  }

  function Positions(width: nat): (s: set<nat>)
    ensures forall b :: b in s <==> 0 <= b < width
  {
    if width == 0 then {} else Positions(width - 1) + {width - 1}
  }

  function NumberOfBits(index: nat, width: nat): (n: nat)
    requires width > 0
    ensures n >= 1 && (n == 1 <==> index < width)
    ensures (n - 1) * width <= index < n * width
  {
    index / width + 1
  }

  /** Whatever has been drawn, there is a fresh candidate for each of the first total indexes. */
  ghost predicate Ample(total: nat, width: nat)
    requires width > 0
  {
    forall index: nat, used: set<Fid> {:trigger Fresh(index, width, used)} :: index < total && |used| <= index + 1 && {} in used ==>
      Fresh(index, width, used)
  }

  ghost predicate Fresh(index: nat, width: nat, used: set<Fid>)
    requires width > 0
  {
    exists lid :: Candidate(lid, NumberOfBits(index, width), width) && lid !in used
  }

  /** All candidates, those with position width - 1 and those without. */
  ghost function Candidates(width: nat, bits: nat): set<Fid>
    decreases width
  {
    if width == 0 || bits == 0 then {}
    else Candidates(width - 1, bits) + WithBit(Candidates(width - 1, bits - 1) + {{}}, width - 1)
  }

  ghost function WithBit(s: set<Fid>, b: nat): set<Fid> {
    set x | x in s :: x + {b}
  }

  /** How many there are. */
  function CandidateCount(width: nat, bits: nat): nat
    decreases width
  {
    if width == 0 || bits == 0 then 0 else CandidateCount(width - 1, bits) + CandidateCount(width - 1, bits - 1) + 1
  }

  lemma {:induction false} NoHighBit(width: nat, bits: nat, b: nat)
    requires b >= width
    ensures forall x :: x in Candidates(width, bits) ==> b !in x
    decreases width
  {
    if width > 0 && bits > 0 {
      NoHighBit(width - 1, bits, b);
      NoHighBit(width - 1, bits - 1, b);
    }
  }

  lemma InWithBit(s: set<Fid>, b: nat, lid: Fid)
    requires forall x :: x in s ==> b !in x
    ensures lid in WithBit(s, b) <==> b in lid && lid - {b} in s
  {
    if lid in WithBit(s, b) {
      var x :| x in s && lid == x + {b};
      assert lid - {b} == x;
    }
    if b in lid && lid - {b} in s {
      assert lid == lid - {b} + {b};
    }
  }

  lemma CandidateSplit(lid: Fid, bits: nat, width: nat)
    requires width > 0 && bits > 0
    ensures width - 1 in lid ==>
      (Candidate(lid, bits, width) <==> lid - {width - 1} == {} || Candidate(lid - {width - 1}, bits - 1, width - 1))
    ensures width - 1 !in lid ==> (Candidate(lid, bits, width) <==> Candidate(lid, bits, width - 1))
  {
    var rest := lid - {width - 1};
    if width - 1 in lid {
      assert lid == rest + {width - 1};
      assert |lid| == |rest| + 1;
    }
  }

  lemma {:induction false} CandidatesAre(width: nat, bits: nat, lid: Fid)
    ensures lid in Candidates(width, bits) <==> Candidate(lid, bits, width)
    decreases width
  {
    hide Candidates, Candidate, CandidateCount, WithBit;
    if width == 0 || bits == 0 {
      NoCandidates(width, bits);
      NoCandidate(lid, bits, width);
    } else {
      var low, high, rest := Candidates(width - 1, bits), Candidates(width - 1, bits - 1), lid - {width - 1};
      NoHighBit(width - 1, bits, width - 1);
      NoHighBit(width - 1, bits - 1, width - 1);
      CandidatesAre(width - 1, bits, lid);
      CandidatesAre(width - 1, bits - 1, rest);
      CandidatesStep(width, bits);
      InWithBit(high + {{}}, width - 1, lid);
      assert lid in Candidates(width, bits) <==> lid in low || (width - 1 in lid && (rest in high || rest == {}));
      CandidateSplit(lid, bits, width);
    }
  }

  lemma NoCandidate(lid: Fid, bits: nat, width: nat)
    requires width == 0 || bits == 0
    ensures !Candidate(lid, bits, width)
  {
    if b :| b in lid {
      assert |lid - {b}| == |lid| - 1;
    }
  }

  lemma {:induction false} WithBitCount(s: set<Fid>, b: nat)
    requires forall x :: x in s ==> b !in x
    ensures |WithBit(s, b)| == |s|
    decreases |s|
  {
    if s != {} {
      var x :| x in s;
      var rest := s - {x};
      WithBitCount(rest, b);
      assert WithBit(s, b) == WithBit(rest, b) + {x + {b}};
      InWithBit(rest, b, x + {b});
      assert (x + {b}) - {b} == x;
    } else {
      assert WithBit(s, b) == {};
    }
  }

  lemma {:induction false} CandidatesCount(width: nat, bits: nat)
    ensures |Candidates(width, bits)| == CandidateCount(width, bits)
    decreases width
  {
    hide Candidates, CandidateCount, WithBit;
    if width == 0 || bits == 0 {
      NoCandidates(width, bits);
    } else {
      CandidatesCount(width - 1, bits);
      CandidatesCount(width - 1, bits - 1);
      CandidatesStep(width, bits);
      NoHighBit(width - 1, bits, width - 1);
      NoHighBit(width - 1, bits - 1, width - 1);
      CandidatesAre(width - 1, bits - 1, {});
      NotCandidate(bits - 1, width - 1);
      CountHigh(Candidates(width - 1, bits), Candidates(width - 1, bits - 1), width - 1);
    }
  }

  lemma NoCandidates(width: nat, bits: nat)
    requires width == 0 || bits == 0
    ensures Candidates(width, bits) == {} && CandidateCount(width, bits) == 0
  {
  }

  lemma CountHigh(low: set<Fid>, rest: set<Fid>, b: nat)
    requires {} !in rest && forall x :: x in low || x in rest ==> b !in x
    ensures |low + WithBit(rest + {{}}, b)| == |low| + |rest| + 1
  {
    hide WithBit;
    WithBitCount(rest + {{}}, b);
    forall x ensures !(x in low && x in WithBit(rest + {{}}, b)) {
      InWithBit(rest + {{}}, b, x);
    }
    DisjointCount(low, WithBit(rest + {{}}, b));
  }

  lemma CandidatesStep(width: nat, bits: nat)
    requires width > 0 && bits > 0
    ensures Candidates(width, bits) == Candidates(width - 1, bits) + WithBit(Candidates(width - 1, bits - 1) + {{}}, width - 1)
    ensures CandidateCount(width, bits) == CandidateCount(width - 1, bits) + CandidateCount(width - 1, bits - 1) + 1
  {
  }

  lemma DisjointCount(a: set<Fid>, b: set<Fid>)
    requires forall x :: !(x in a && x in b)
    ensures |a + b| == |a| + |b|
  {
    assert a * b == {};
  }

  lemma SubsetSize<T>(a: set<T>, b: set<T>)
    requires a <= b
    ensures |a| <= |b|
  {
    assert b == a + (b - a);
  }

  /** A fresh candidate exists whatever has been drawn exactly if there are more candidates than identifiers before. */
  lemma FreshIff(index: nat, width: nat)
    requires width > 0
    ensures AlwaysFresh(index, width) <==> index < CandidateCount(width, NumberOfBits(index, width))
  {
    hide Candidate, Candidates;
    var bits := NumberOfBits(index, width);
    var all := Candidates(width, bits);
    forall lid ensures lid in all <==> Candidate(lid, bits, width) {
      CandidatesAre(width, bits, lid);
    }
    CandidatesCount(width, bits);
    NotCandidate(bits, width);
    if index < |all| {
      forall used: set<Fid> | |used| <= index + 1 && {} in used ensures Fresh(index, width, used) {
        if all <= used - {{}} {
          SubsetSize(all, used - {{}});
        }
        var lid :| lid in all && lid !in used;
      }
    } else {
      assert |all + {{}}| == |all| + 1;
      assert !Fresh(index, width, all + {{}});
    }
  }

  lemma NotCandidate(bits: nat, width: nat)
    ensures !Candidate({}, bits, width)
  {
  }

  ghost predicate AlwaysFresh(index: nat, width: nat)
    requires width > 0
  {
    forall used: set<Fid> {:trigger Fresh(index, width, used)} :: |used| <= index + 1 && {} in used ==> Fresh(index, width, used)
  }

  /** So the retry loop can always end exactly if that holds for every identifier. */
  lemma AmpleIff(total: nat, width: nat)
    requires width > 0
    ensures Ample(total, width) <==> forall index: nat :: index < total ==> index < CandidateCount(width, NumberOfBits(index, width))
  {
    hide Fresh, NumberOfBits, CandidateCount;
    forall index: nat ensures AlwaysFresh(index, width) <==> index < CandidateCount(width, NumberOfBits(index, width)) {
      FreshIff(index, width);
    }
    if forall index: nat :: index < total ==> index < CandidateCount(width, NumberOfBits(index, width)) {
      forall index: nat, used: set<Fid> {:trigger Fresh(index, width, used)} | index < total && |used| <= index + 1 && {} in used
        ensures Fresh(index, width, used)
      {
        assert AlwaysFresh(index, width);
      }
    }
    if Ample(total, width) {
      forall index: nat | index < total ensures index < CandidateCount(width, NumberOfBits(index, width)) {
        assert AlwaysFresh(index, width);
      }
    }
  }

  lemma {:induction false} CountBounds(width: nat, bits: nat)
    requires bits > 0
    ensures CandidateCount(width, bits) >= width
    ensures CandidateCount(width, bits) >= CandidateCount(width, bits - 1)
    ensures bits <= width ==> CandidateCount(width, bits) > CandidateCount(width, bits - 1)
    ensures bits < width ==> CandidateCount(width, bits) >= bits * width
    decreases width
  {
    if width > 0 {
      CountBounds(width - 1, bits);
      if bits > 1 {
        CountBounds(width - 1, bits - 1);
        if bits < width {
          CountProduct(CandidateCount(width - 1, bits), CandidateCount(width - 1, bits - 1), bits, width);
        }
      }
    }
  }

  lemma CountProduct(a: nat, b: nat, bits: nat, width: nat)
    requires 1 < bits < width && a >= b
    requires bits < width - 1 ==> a >= bits * (width - 1)
    requires bits == width - 1 ==> a >= b + 1
    requires b >= (bits - 1) * (width - 1)
    ensures a + b + 1 >= bits * width
  {
    assert (bits - 1) * (width - 1) == bits * width - bits - width + 1;
    if bits < width - 1 {
      assert bits * (width - 1) == bits * width - bits;
      assert (bits - 1) * (width - 2) == bits * width - 2 * bits - width + 2;
      Positive(bits - 1, width - 2);
    } else {
      assert bits * width == bits * bits + bits;
      assert (bits - 1) * (bits - 2) == bits * bits - 3 * bits + 2;
      Positive(bits - 1, bits - 2);
    }
  }

  lemma Positive(a: nat, b: nat)
    ensures a * b >= 0
  {
  }

  lemma EnoughBits(index: nat, width: nat)
    requires width > 0
    ensures index < NumberOfBits(index, width) * width
    ensures index < width * (width - 1) ==> NumberOfBits(index, width) < width
  {
    var q, r := index / width, index % width;
    QuotientAt(index, width, q, r);
    assert (q + 1) * width == q * width + width;
    if q >= width - 1 {
      ProductGrows(width - 1, q, width);
    }
  }

  lemma QuotientAt(index: nat, width: nat, q: nat, r: nat)
    requires width > 0 && q == index / width && r == index % width
    ensures index == q * width + r && r < width
  {
  }

  lemma ProductGrows(a: nat, b: nat, c: nat)
    requires a <= b
    ensures c * a <= b * c
  {
    assert (b - a) * c >= 0;
  }

  /** With no more identifiers than bits, or than bits times one less, there is always one left. */
  lemma ManyAreAmple(total: nat, width: nat)
    requires width > 0 && (total <= width || total <= width * (width - 1))
    ensures Ample(total, width)
  {
    hide Ample, CandidateCount, NumberOfBits;
    forall index: nat | index < total ensures index < CandidateCount(width, NumberOfBits(index, width)) {
      CountBounds(width, NumberOfBits(index, width));
      EnoughBits(index, width);
    }
    AmpleIff(total, width);
  }

  /** All identifiers of a domain: for each node its internal one, then those of its connections. */
  function AllLids(nodes: seq<NetworkNode>): seq<Fid> {
    if nodes == [] then []
    else AllLids(nodes[..|nodes| - 1]) + NodeLids(nodes[|nodes| - 1])
  }

  function NodeLids(n: NetworkNode): seq<Fid> {
    [n.iLid] + ConnectionLids(n.connections)
  }

  function ConnectionLids(cs: seq<Connection>): (lids: seq<Fid>)
    ensures |lids| == |cs| && forall j :: 0 <= j < |cs| ==> lids[j] == cs[j].lid
  {
    seq(|cs|, j requires 0 <= j < |cs| => cs[j].lid)
  }

  ghost predicate Distinct(lids: seq<Fid>) {
    forall i, j :: 0 <= i < j < |lids| ==> lids[i] != lids[j]
  }

  /** Every identifier is a candidate for its index, and no two are equal. */
  ghost predicate Drawn(lids: seq<Fid>, width: nat)
    requires width > 0
  {
    && Distinct(lids)
    && forall i :: 0 <= i < |lids| ==> Candidate(lids[i], NumberOfBits(i, width), width)
  }

  predicate IsBit(lid: Fid, b: nat) {
    lid == {b}
  }

  ghost predicate SingleOf(lid: Fid, width: nat) {
    exists b: nat :: b < width && IsBit(lid, b)
  }

  /** In a small domain every identifier is a single bit, and they are all different. */
  lemma SmallDomainSingleBits(lids: seq<Fid>, width: nat)
    requires width > 0 && Drawn(lids, width) && |lids| <= width
    ensures forall i :: 0 <= i < |lids| ==> SingleOf(lids[i], width)
  {
    forall i | 0 <= i < |lids| ensures SingleOf(lids[i], width) {
      var b :| b in lids[i];
      SingleBit(lids[i], b);
      assert IsBit(lids[i], b);
    }
  }

  lemma SingleBit(s: Fid, b: nat)
    requires b in s && |s| <= 1
    ensures s == {b}
  {
    assert |s - {b}| == |s| - 1;
  }

  /** The same nodes and connections, apart from identifiers. */
  ghost predicate SameShape(nodes: seq<NetworkNode>, nodes': seq<NetworkNode>) {
    && |nodes'| == |nodes|
    && forall i :: 0 <= i < |nodes| ==> SameNodeShape(nodes[i], nodes'[i])
  }

  ghost predicate SameNodeShape(n: NetworkNode, n': NetworkNode) {
    n'.name == n.name && SameConnections(n.connections, n'.connections)
  }

  ghost predicate SameConnections(cs: seq<Connection>, cs': seq<Connection>) {
    && |cs'| == |cs|
    && forall j :: 0 <= j < |cs| ==> cs'[j] == cs[j].(lid := cs'[j].lid)
  }

  lemma {:induction false} CountLids(nodes: seq<NetworkNode>, nodes': seq<NetworkNode>)
    requires SameShape(nodes, nodes')
    ensures |AllLids(nodes)| == |AllLids(nodes')|
  {
    if nodes != [] {
      CountLids(nodes[..|nodes| - 1], nodes'[..|nodes| - 1]);
    }
  }

  lemma {:induction false} PrefixLids(nodes: seq<NetworkNode>, i: nat)
    requires i < |nodes|
    ensures AllLids(nodes[..i + 1]) == AllLids(nodes[..i]) + NodeLids(nodes[i])
    ensures |AllLids(nodes[..i])| + |NodeLids(nodes[i])| <= |AllLids(nodes)|
    decreases |nodes|
  {
    assert nodes[..i + 1][..i] == nodes[..i];
    if i + 1 < |nodes| {
      var front := nodes[..|nodes| - 1];
      PrefixLids(front, i);
      assert front[..i] == nodes[..i] && front[..i + 1] == nodes[..i + 1];
    } else {
      assert nodes[..i + 1] == nodes;
    }
  }

  class Domain {
    /** fid_len * 8. */
    const width: nat
    var nodes: seq<NetworkNode>

    constructor (width: nat, nodes: seq<NetworkNode>)
      ensures this.width == width && this.nodes == nodes
    {
      this.width, this.nodes := width, nodes;
    }

    method Exists(lids: array<Fid>, lid: Fid) returns (found: bool)
      ensures found == (lid in lids[..])
    {
      for i := 0 to lids.Length
        invariant lid !in lids[..i]
      {
        if lids[i] == lid {
          return true;
        }
      }
      found := false;
      assert lids[..lids.Length] == lids[..];
    }

    /** Draws until the identifier is not in use; the draws themselves are left open. */
    method CalculateLID(lids: array<Fid>, index: nat)
      requires width > 0 && index < lids.Length && Fresh(index, width, set x | x in lids[..])
      modifies lids
      ensures lids[..] == old(lids[..])[index := lids[index]] && lids[index] !in old(lids[..])
      ensures Candidate(lids[index], NumberOfBits(index, width), width)
    {
      var numberOfBits := NumberOfBits(index, width);
      ghost var used := set x | x in lids[..];
      assert forall x :: x in used <==> x in lids[..];
      var lid := Draw(numberOfBits, lids);
      lids[index] := lid;
    }

    /** The outcome of the retry loop. */
    method Draw(bits: nat, lids: array<Fid>) returns (lid: Fid)
      requires exists c :: Candidate(c, bits, width) && c !in lids[..]
      ensures Candidate(lid, bits, width) && lid !in lids[..]
    {
      ghost var c :| Candidate(c, bits, width) && c !in lids[..];
      assert c <= Positions(width);
      var lid' :| lid' <= Positions(width) && Candidate(lid', bits, width) && lid' !in lids[..];
      lid := lid';
    }

    /** One identifier for every node and every connection, no two equal. */
    method AssignLIDs()
      requires width > 0 && Ample(|AllLids(nodes)|, width)
      modifies this`nodes
      ensures SameShape(old(nodes), nodes) && |AllLids(nodes)| == |AllLids(old(nodes))|
      ensures Drawn(AllLids(nodes), width)
    {
      var totalLIDs := |AllLids(nodes)|;
      var lids := new Fid[totalLIDs](_ => {});
      for i := 0 to totalLIDs
        invariant nodes == old(nodes) && fresh(lids) && lids.Length == totalLIDs
        invariant Drawn(lids[..i], width) && forall j :: i <= j < totalLIDs ==> lids[j] == {}
      {
        ghost var before := lids[..];
        UsedCount(before, i);
        CalculateLID(lids, i);
        DrawnMore(before, lids[..], i, width);
      }
      assert lids[..totalLIDs] == lids[..];
      Distribute(lids[..]);
    }

    /** Hands the identifiers out in order: a node's own, then its connections'. */
    method Distribute(lids: seq<Fid>)
      requires |lids| == |AllLids(nodes)|
      modifies this`nodes
      ensures SameShape(old(nodes), nodes) && AllLids(nodes) == lids
    {
      hide SameShape, SameConnections, AllLids, ConnectionLids;
      var lidCounter := 0;
      var i := 0;
      NoLids(nodes);
      while i < |nodes|
        invariant 0 <= i <= |nodes| && SameShape(old(nodes), nodes)
        invariant lidCounter == |AllLids(nodes[..i])| <= |lids| && AllLids(nodes[..i]) == lids[..lidCounter]
      {
        CountLids(old(nodes), nodes);
        PrefixLids(nodes, i);
        var n := nodes[i];
        var cs := AssignConnections(n.connections, lids, lidCounter + 1);
        HandedOut(nodes, i, NetworkNode(n.name, lids[lidCounter], cs), lids, lidCounter);
        ShapeStep(old(nodes), nodes, i, NetworkNode(n.name, lids[lidCounter], cs));
        nodes := nodes[i := NetworkNode(n.name, lids[lidCounter], cs)];
        lidCounter := lidCounter + 1 + |cs|;
        i := i + 1;
      }
      assert nodes[..i] == nodes;
      CountLids(old(nodes), nodes);
    }

    method AssignConnections(connections: seq<Connection>, lids: seq<Fid>, lidCounter: nat) returns (cs: seq<Connection>)
      requires lidCounter + |connections| <= |lids|
      ensures |cs| == |connections| && SameConnections(connections, cs) && ConnectionLids(cs) == lids[lidCounter..lidCounter + |cs|]
    {
      cs := connections;
      var j := 0;
      while j < |cs|
        invariant 0 <= j <= |cs| && SameConnections(connections, cs)
        invariant forall k :: 0 <= k < j ==> cs[k].lid == lids[lidCounter + k]
      {
        cs := cs[j := cs[j].(lid := lids[lidCounter + j])];
        j := j + 1;
      }
    }
  }

  lemma NoLids(nodes: seq<NetworkNode>)
    ensures AllLids(nodes[..0]) == [] && SameShape(nodes, nodes)
  {
  }

  lemma ShapeStep(nodes: seq<NetworkNode>, nodes': seq<NetworkNode>, i: nat, n: NetworkNode)
    requires SameShape(nodes, nodes') && i < |nodes'| && n.name == nodes'[i].name && SameConnections(nodes'[i].connections, n.connections)
    ensures SameShape(nodes, nodes'[i := n])
  {
    assert SameNodeShape(nodes[i], nodes'[i]);
    forall k | 0 <= k < |nodes| ensures SameNodeShape(nodes[k], nodes'[i := n][k]) {
      assert SameNodeShape(nodes[k], nodes'[k]);
    }
  }

  lemma HandedOut(nodes: seq<NetworkNode>, i: nat, n: NetworkNode, lids: seq<Fid>, lidCounter: nat)
    requires i < |nodes| && lidCounter + 1 + |n.connections| <= |lids| && AllLids(nodes[..i]) == lids[..lidCounter]
    requires n.iLid == lids[lidCounter] && ConnectionLids(n.connections) == lids[lidCounter + 1..lidCounter + 1 + |n.connections|]
    ensures AllLids(nodes[i := n][..i + 1]) == lids[..lidCounter + 1 + |n.connections|]
  {
    var nodes' := nodes[i := n];
    assert nodes'[..i] == nodes[..i];
    PrefixLids(nodes', i);
    var next := lidCounter + 1 + |n.connections|;
    assert lids[lidCounter..next] == [lids[lidCounter]] + lids[lidCounter + 1..next];
    assert lids[..next] == lids[..lidCounter] + lids[lidCounter..next];
  }

  lemma UsedCount(lids: seq<Fid>, i: nat)
    requires i < |lids| && forall j :: i <= j < |lids| ==> lids[j] == {}
    ensures var used := set x | x in lids; |used| <= i + 1 && {} in used
  {
    var used := set x | x in lids;
    assert lids[i] in used;
    var front := set x | x in lids[..i];
    assert used == front + {{}};
    AtMostLength(lids[..i]);
    if {} in front {
      assert front + {{}} == front;
    }
  }

  lemma {:induction false} AtMostLength(lids: seq<Fid>)
    ensures |set x | x in lids| <= |lids|
  {
    if lids != [] {
      var n := |lids| - 1;
      AtMostLength(lids[..n]);
      assert (set x | x in lids) == (set x | x in lids[..n]) + {lids[n]};
    }
  }

  lemma DrawnMore(before: seq<Fid>, after: seq<Fid>, i: nat, width: nat)
    requires width > 0 && i < |before| && Drawn(before[..i], width) && |after| == |before| && after == before[i := after[i]]
    requires after[i] !in before && Candidate(after[i], NumberOfBits(i, width), width)
    ensures Drawn(after[..i + 1], width)
  {
    assert after[..i + 1] == before[..i] + [after[i]];
  }
}
