/**
 The messages that tell a publisher to start: the rendezvous node's request to the topology manager,
 the topology manager's response, and what the publisher's local proxy reads from it.
 */
module WireFormats {
  type Byte = b: nat | b < 256

  type Bytes = seq<Byte>

  const PURSUIT_ID_LEN := 8
  const FID_LEN := 32
  const MATCH_PUB_SUBS: Byte := 105
  const START_PUBLISH: Byte := 100
  const STOP_PUBLISH: Byte := 101

  /** Whole fragments. */
  predicate IsId(id: Bytes) {
    id != [] && |id| % PURSUIT_ID_LEN == 0
  }

  predicate IsNodeId(id: Bytes) {
    |id| == PURSUIT_ID_LEN
  }

  function Concat(parts: seq<Bytes>): Bytes {
    if parts == [] then [] else Concat(parts[..|parts| - 1]) + parts[|parts| - 1]
  }

  /** The one byte written for an identifier's length: the length is cut to a byte before it is divided. */
  function LengthByte(id: Bytes): Byte {
    |id| % 256 / PURSUIT_ID_LEN
  }

  /** Each identifier with its length in front. */
  function EncodeIds(ids: seq<Bytes>): Bytes {
    if ids == [] then []
    else EncodeIds(ids[..|ids| - 1]) + [LengthByte(ids[|ids| - 1])] + ids[|ids| - 1]
  }

  function Request(strategy: Byte, pubs: seq<Bytes>, subs: seq<Bytes>, ids: seq<Bytes>): Bytes {
    [MATCH_PUB_SUBS, strategy, |pubs| % 256] + Concat(pubs) + [|subs| % 256] + Concat(subs) + [|ids| % 256] + EncodeIds(ids)
  }

  /** The response to one publisher; without a forwarding identifier it has to stop. */
  function Response(ids: seq<Bytes>, fid: Bytes): Bytes {
    [if fid == [] then STOP_PUBLISH else START_PUBLISH, |ids| % 256] + EncodeIds(ids) + fid
  }

  function TotalBytes(ids: seq<Bytes>): nat {
    if ids == [] then 0 else TotalBytes(ids[..|ids| - 1]) + |ids[|ids| - 1]|
  }

  /** The same sum kept in one byte, as the request's length computation does. */
  function TotalInByte(ids: seq<Bytes>): Byte {
    if ids == [] then 0 else (TotalInByte(ids[..|ids| - 1]) + |ids[|ids| - 1]|) % 256
  }

  /** The length of the payload the rendezvous node allocates. */
  function AllocatedLength(pubs: seq<Bytes>, subs: seq<Bytes>, ids: seq<Bytes>): nat {
    3 + |pubs| * PURSUIT_ID_LEN + 1 + |subs| * PURSUIT_ID_LEN + 1 + |ids| + TotalInByte(ids)
  }

  lemma {:induction false} TotalModulo(ids: seq<Bytes>)
    ensures TotalInByte(ids) == TotalBytes(ids) % 256
  {
    if ids != [] {
      TotalModulo(ids[..|ids| - 1]);
      SumInByteIs(TotalBytes(ids[..|ids| - 1]), |ids[|ids| - 1]|);
    }
  }

  lemma SumInByteIs(a: nat, b: nat)
    ensures (a % 256 + b) % 256 == (a + b) % 256
  {
  }

  lemma {:induction false} ConcatLength(parts: seq<Bytes>)
    requires forall i :: 0 <= i < |parts| ==> IsNodeId(parts[i])
    ensures |Concat(parts)| == |parts| * PURSUIT_ID_LEN
  {
    if parts != [] {
      ConcatLength(parts[..|parts| - 1]);
    }
  }

  lemma {:induction false} EncodedLength(ids: seq<Bytes>)
    ensures |EncodeIds(ids)| == |ids| + TotalBytes(ids)
  {
    if ids != [] {
      EncodedLength(ids[..|ids| - 1]);
    }
  }

  ghost predicate NodeIds(parts: seq<Bytes>) {
    forall i :: 0 <= i < |parts| ==> IsNodeId(parts[i])
  }

  /** The allocated length is what gets written exactly if the identifiers have at most 255 bytes in all. */
  lemma AllocationExact(strategy: Byte, pubs: seq<Bytes>, subs: seq<Bytes>, ids: seq<Bytes>)
    requires NodeIds(pubs) && NodeIds(subs)
    ensures AllocatedLength(pubs, subs, ids) == |Request(strategy, pubs, subs, ids)| <==> TotalBytes(ids) < 256
    ensures AllocatedLength(pubs, subs, ids) <= |Request(strategy, pubs, subs, ids)|
  {
    TotalModulo(ids);
    ConcatLength(pubs);
    ConcatLength(subs);
    EncodedLength(ids);
  }

  /** What fits the one-byte counts and lengths. */
  ghost predicate Encodable(pubs: seq<Bytes>, subs: seq<Bytes>, ids: seq<Bytes>) {
    && NodeIds(pubs) && NodeIds(subs) && AllIds(ids)
    && |pubs| < 256 && |subs| < 256 && |ids| < 256 && TotalBytes(ids) < 256
  }

  ghost predicate AllIds(ids: seq<Bytes>) {
    forall i :: 0 <= i < |ids| ==> IsId(ids[i])
  }

  // ---------- reading ----------

  /** The first n identifiers read from the bytes, and how far the reading got; None if they run out. */
  datatype Parsed = Nothing | Parsed(ids: seq<Bytes>, used: nat)

  function ParseIds(bytes: Bytes, n: nat): Parsed {
    if n == 0 then Parsed([], 0)
    else
      var before := ParseIds(bytes, n - 1);
      if before.Nothing? || before.used >= |bytes| then Nothing
      else
        var len := bytes[before.used] * PURSUIT_ID_LEN;
        if before.used + 1 + len > |bytes| then Nothing
        else Parsed(before.ids + [bytes[before.used + 1..before.used + 1 + len]], before.used + 1 + len)
  }

  lemma {:induction false} PartOfTotal(ids: seq<Bytes>, i: nat)
    requires i < |ids|
    ensures |ids[i]| <= TotalBytes(ids) && TotalBytes(ids[..i]) <= TotalBytes(ids)
    decreases |ids|
  {
    var front := ids[..|ids| - 1];
    if i < |front| {
      PartOfTotal(front, i);
      assert front[..i] == ids[..i];
    } else {
      assert ids[..i] == front;
    }
  }

  lemma PartAt(bytes: Bytes, at: nat, first: Byte, part: Bytes, tail: Bytes)
    requires at <= |bytes| && bytes[at..] == [first] + part + tail
    ensures at + 1 + |part| <= |bytes| && bytes[at] == first && bytes[at + 1..at + 1 + |part|] == part
  {
    var rest := bytes[at..];
    assert bytes[at] == rest[0];
    forall k | 0 <= k < |part| ensures bytes[at + 1 + k] == part[k] {
      assert bytes[at + 1 + k] == rest[1 + k];
    }
  }

  lemma ParseStep(bytes: Bytes, n: nat, before: seq<Bytes>, used: nat, id: Bytes, tail: Bytes)
    requires n > 0 && ParseIds(bytes, n - 1) == Parsed(before, used) && used <= |bytes|
    requires bytes[used..] == [LengthByte(id)] + id + tail && IsId(id) && |id| < 256
    ensures ParseIds(bytes, n) == Parsed(before + [id], used + 1 + |id|)
  {
    PartAt(bytes, used, LengthByte(id), id, tail);
    assert LengthByte(id) * PURSUIT_ID_LEN == |id|;
  }

  /** Reading back what was written, whatever follows. */
  lemma {:induction false} ParseEncoded(ids: seq<Bytes>, rest: Bytes, n: nat)
    requires AllIds(ids) && n <= |ids| && forall i :: 0 <= i < |ids| ==> |ids[i]| < 256
    ensures ParseIds(EncodeIds(ids) + rest, n) == Parsed(ids[..n], |EncodeIds(ids[..n])|)
    decreases n
  {
    hide EncodeIds, ParseIds, LengthByte, IsId;
    var bytes := EncodeIds(ids) + rest;
    if n == 0 {
      assert ids[..0] == [];
      NothingParsed(bytes);
    } else {
      ParseEncoded(ids, rest, n - 1);
      EncodedAt(ids, n);
      var front, all := EncodeIds(ids[..n - 1]), EncodeIds(ids[..n]);
      var tail := EncodeIds(ids)[|all|..] + rest;
      assert bytes == all + tail;
      assert bytes[|front|..] == [LengthByte(ids[n - 1])] + ids[n - 1] + tail;
      ParseStep(bytes, n, ids[..n - 1], |front|, ids[n - 1], tail);
      assert ids[..n] == ids[..n - 1] + [ids[n - 1]];
    }
  }

  lemma NothingParsed(bytes: Bytes)
    ensures ParseIds(bytes, 0) == Parsed([], 0) && EncodeIds([]) == []
  {
  }

  /** Where identifier n - 1 stands in the encoding. */
  lemma {:induction false} EncodedAt(ids: seq<Bytes>, n: nat)
    requires 0 < n <= |ids|
    ensures EncodeIds(ids[..n]) == EncodeIds(ids[..n - 1]) + [LengthByte(ids[n - 1])] + ids[n - 1]
    ensures EncodeIds(ids[..n]) <= EncodeIds(ids)
    decreases |ids|
  {
    assert ids[..n][..n - 1] == ids[..n - 1];
    if n == |ids| {
      assert ids[..n] == ids;
    } else {
      var front := ids[..|ids| - 1];
      EncodedAt(front, n);
      assert front[..n] == ids[..n];
    }
  }

  /** The start message a proxy reads: its identifiers and the forwarding identifier behind them. */
  function DecodeStart(p: Bytes): (seq<Bytes>, Bytes)
    requires |p| >= 2 && ParseIds(p[2..], p[1]).Parsed? && |p| - 2 - ParseIds(p[2..], p[1]).used >= FID_LEN
  {
    var r := ParseIds(p[2..], p[1]);
    (r.ids, p[2 + r.used..2 + r.used + FID_LEN])
  }

  /** Where a request says its publishers and subscribers end. */
  function NodesEnd(request: Bytes): nat {
    var subsAt := if |request| >= 3 then 3 + request[2] * PURSUIT_ID_LEN else 3;
    if subsAt < |request| then subsAt + 1 + request[subsAt] * PURSUIT_ID_LEN else |request|
  }

  /** The start message relayed for a request: everything behind the subscribers, and the forwarding identifier. */
  function Relayed(request: Bytes, fid: Bytes): Bytes {
    [START_PUBLISH] + (if NodesEnd(request) <= |request| then request[NodesEnd(request)..] else []) + fid
  }

  lemma RelayedIs(strategy: Byte, pubs: seq<Bytes>, subs: seq<Bytes>, ids: seq<Bytes>, fid: Bytes)
    requires Encodable(pubs, subs, ids) && |fid| == FID_LEN
    ensures Relayed(Request(strategy, pubs, subs, ids), fid) == Response(ids, fid)
  {
    hide Concat, EncodeIds, NodeIds, AllIds, TotalBytes;
    ConcatLengths(pubs, subs);
    var request := Request(strategy, pubs, subs, ids);
    assert request[3 + |pubs| * PURSUIT_ID_LEN] == |subs|;
    assert request[NodesEnd(request)..] == [|ids| % 256] + EncodeIds(ids);
  }

  /** The identifiers the rendezvous node encodes and the forwarding identifier the topology manager appends to what it
      relays arrive unchanged. */
  lemma RoundTrip(strategy: Byte, pubs: seq<Bytes>, subs: seq<Bytes>, ids: seq<Bytes>, fid: Bytes)
    requires Encodable(pubs, subs, ids) && |fid| == FID_LEN
    ensures var p := Relayed(Request(strategy, pubs, subs, ids), fid);
      && |p| >= 2 && p[0] == START_PUBLISH && ParseIds(p[2..], p[1]).Parsed? && |p| - 2 - ParseIds(p[2..], p[1]).used == FID_LEN
      && DecodeStart(p) == (ids, fid)
  {
    hide EncodeIds, ParseIds, Relayed;
    RelayedIs(strategy, pubs, subs, ids, fid);
    var p := Response(ids, fid);
    forall i | 0 <= i < |ids| ensures |ids[i]| < 256 {
      PartOfTotal(ids, i);
    }
    assert p[2..] == EncodeIds(ids) + fid;
    ParseEncoded(ids, fid, |ids|);
    assert ids[..|ids|] == ids;
    assert p[1] == |ids|;
    assert p[2 + |EncodeIds(ids)|..2 + |EncodeIds(ids)| + FID_LEN] == fid;
  }

  // ---------- the three programs ----------

  /** Copies bytes into the packet. */
  method Put(p: array<Byte>, at: nat, bytes: Bytes)
    requires at + |bytes| <= p.Length
    modifies p
    ensures p[..at + |bytes|] == old(p[..at]) + bytes
  {
    ghost var before := p[..];
    for i := 0 to |bytes|
      invariant p[..at + i] == before[..at] + bytes[..i]
    {
      p[at + i] := bytes[i];
      assert bytes[..i + 1] == bytes[..i] + [bytes[i]];
    }
    assert bytes[..|bytes|] == bytes;
  }

  method PutAll(p: array<Byte>, at: nat, parts: seq<Bytes>)
    requires NodeIds(parts) && at + |parts| * PURSUIT_ID_LEN <= p.Length
    modifies p
    ensures p[..at + |parts| * PURSUIT_ID_LEN] == old(p[..at]) + Concat(parts)
  {
    hide Concat;
    ghost var before := p[..at];
    NoParts();
    for i := 0 to |parts|
      invariant p[..at + i * PURSUIT_ID_LEN] == before + Concat(parts[..i])
    {
      ConcatMore(parts, i);
      Put(p, at + i * PURSUIT_ID_LEN, parts[i]);
    }
    assert parts[..|parts|] == parts;
  }

  lemma NoParts()
    ensures Concat([]) == [] && EncodeIds([]) == []
  {
  }

  lemma ConcatMore(parts: seq<Bytes>, i: nat)
    requires i < |parts|
    ensures Concat(parts[..i + 1]) == Concat(parts[..i]) + parts[i]
  {
    assert parts[..i + 1][..i] == parts[..i];
  }

  method PutIds(p: array<Byte>, at: nat, ids: seq<Bytes>)
    requires at + |EncodeIds(ids)| <= p.Length
    modifies p
    ensures p[..at + |EncodeIds(ids)|] == old(p[..at]) + EncodeIds(ids)
  {
    hide EncodeIds, LengthByte;
    ghost var before := p[..at];
    NoParts();
    var index := 0;
    assert ids[..0] == [];
    for i := 0 to |ids|
      invariant index == |EncodeIds(ids[..i])| && at + index <= p.Length && p[..at + index] == before + EncodeIds(ids[..i])
    {
      EncodedAt(ids, i + 1);
      Put(p, at + index, [LengthByte(ids[i])]);
      Put(p, at + index + 1, ids[i]);
      index := index + 1 + |ids[i]|;
    }
    assert ids[..|ids|] == ids;
  }

  method SumInByte(ids: seq<Bytes>) returns (total: Byte)
    ensures total == TotalInByte(ids)
  {
    total := 0;
    for i := 0 to |ids|
      invariant total == TotalInByte(ids[..i])
    {
      assert ids[..i + 1][..i] == ids[..i];
      total := (total + |ids[i]|) % 256;
    }
    assert ids[..|ids|] == ids;
  }

  /** The rendezvous node allocates the packet first and then fills it completely. */
  method RequestTMAssistance(strategy: Byte, pubs: seq<Bytes>, subs: seq<Bytes>, ids: seq<Bytes>) returns (p: array<Byte>)
    requires Encodable(pubs, subs, ids)
    ensures fresh(p) && p[..] == Request(strategy, pubs, subs, ids)
    ensures p.Length >= 3 && p[0] == 105 && p[1] == strategy && p[2] == |pubs|
  {
    hide Concat, EncodeIds, TotalInByte, TotalBytes, NodeIds, AllIds;
    EncodedLength(ids);
    AllocationExact(strategy, pubs, subs, ids);
    ConcatLengths(pubs, subs);
    var total := SumInByte(ids);
    var packetLen := 3 + |pubs| * PURSUIT_ID_LEN + 1 + |subs| * PURSUIT_ID_LEN + 1 + |ids| + total;
    p := new Byte[packetLen](_ => 0);
    Fill(p, strategy, pubs, subs, ids);
  }

  method PutByte(p: array<Byte>, at: nat, b: Byte)
    requires at < p.Length
    modifies p
    ensures p[..at + 1] == old(p[..at]) + [b]
  {
    p[at] := b;
  }

  /** A count and that many node identifiers. */
  method PutNodes(p: array<Byte>, at: nat, nodes: seq<Bytes>)
    requires NodeIds(nodes) && at + 1 + |nodes| * PURSUIT_ID_LEN <= p.Length
    modifies p
    ensures p[..at + 1 + |nodes| * PURSUIT_ID_LEN] == old(p[..at]) + [|nodes| % 256] + Concat(nodes)
  {
    PutByte(p, at, |nodes| % 256);
    PutAll(p, at + 1, nodes);
  }

  lemma RequestParts(strategy: Byte, pubs: seq<Bytes>, subs: seq<Bytes>, ids: seq<Bytes>, withPubs: Bytes, withSubs: Bytes, all: Bytes)
    requires withPubs == [MATCH_PUB_SUBS, strategy] + [|pubs| % 256] + Concat(pubs)
    requires withSubs == withPubs + [|subs| % 256] + Concat(subs) && all == withSubs + [|ids| % 256] + EncodeIds(ids)
    ensures all == Request(strategy, pubs, subs, ids)
  {
    hide Concat, EncodeIds;
  }

  method Fill(p: array<Byte>, strategy: Byte, pubs: seq<Bytes>, subs: seq<Bytes>, ids: seq<Bytes>)
    requires NodeIds(pubs) && NodeIds(subs) && p.Length == 5 + |pubs| * PURSUIT_ID_LEN + |subs| * PURSUIT_ID_LEN + |EncodeIds(ids)|
    modifies p
    ensures p[..] == Request(strategy, pubs, subs, ids)
  {
    hide Concat, EncodeIds, NodeIds, IsNodeId, Request;
    var n, m := |pubs| * PURSUIT_ID_LEN, |subs| * PURSUIT_ID_LEN;
    Put(p, 0, [MATCH_PUB_SUBS, strategy]);
    PutNodes(p, 2, pubs);
    ghost var withPubs := p[..3 + n];
    PutNodes(p, 3 + n, subs);
    ghost var withSubs := p[..4 + n + m];
    PutByte(p, 4 + n + m, |ids| % 256);
    PutIds(p, 5 + n + m, ids);
    assert p[..5 + n + m + |EncodeIds(ids)|] == p[..];
    RequestParts(strategy, pubs, subs, ids, withPubs, withSubs, p[..]);
  }

  lemma ConcatLengths(pubs: seq<Bytes>, subs: seq<Bytes>)
    requires NodeIds(pubs) && NodeIds(subs)
    ensures |Concat(pubs)| == |pubs| * PURSUIT_ID_LEN && |Concat(subs)| == |subs| * PURSUIT_ID_LEN
  {
    ConcatLength(pubs);
    ConcatLength(subs);
  }

  lemma NodeIdAt(head: Bytes, parts: seq<Bytes>, tail: Bytes, i: nat)
    requires NodeIds(parts) && i < |parts|
    ensures |Concat(parts)| == |parts| * PURSUIT_ID_LEN
    ensures (head + Concat(parts) + tail)[|head| + i * PURSUIT_ID_LEN..|head| + (i + 1) * PURSUIT_ID_LEN] == parts[i]
  {
    ConcatLength(parts);
    ConcatAt(parts, i);
  }

  /** Where things are in a request: type, strategy, the publishers behind their count, the subscribers behind theirs, and the
      identifiers behind theirs. */
  lemma RequestLayout(strategy: Byte, pubs: seq<Bytes>, subs: seq<Bytes>, ids: seq<Bytes>)
    requires Encodable(pubs, subs, ids)
    ensures var r, n, m := Request(strategy, pubs, subs, ids), |pubs| * PURSUIT_ID_LEN, |subs| * PURSUIT_ID_LEN;
      && |r| == 5 + n + m + |EncodeIds(ids)|
      && r[0] == 105 && r[1] == strategy && r[2] == |pubs| && r[3 + n] == |subs| && r[4 + n + m] == |ids|
      && (forall i :: 0 <= i < |pubs| ==> r[3 + i * PURSUIT_ID_LEN..3 + (i + 1) * PURSUIT_ID_LEN] == pubs[i])
      && (forall i :: 0 <= i < |subs| ==> r[4 + n + i * PURSUIT_ID_LEN..4 + n + (i + 1) * PURSUIT_ID_LEN] == subs[i])
      && r[5 + n + m..] == EncodeIds(ids)
  {
    hide Concat, EncodeIds, NodeIds, AllIds, TotalBytes;
    ConcatLengths(pubs, subs);
    var r := Request(strategy, pubs, subs, ids);
    var last := [|ids| % 256] + EncodeIds(ids);
    var rest := [|subs| % 256] + Concat(subs) + last;
    var front := [MATCH_PUB_SUBS, strategy, |pubs| % 256];
    var middle := front + Concat(pubs) + [|subs| % 256];
    assert r == front + Concat(pubs) + rest;
    assert r == middle + Concat(subs) + last;
    forall i | 0 <= i < |pubs| ensures r[3 + i * PURSUIT_ID_LEN..3 + (i + 1) * PURSUIT_ID_LEN] == pubs[i] {
      NodeIdAt(front, pubs, rest, i);
    }
    forall i | 0 <= i < |subs|
      ensures r[4 + |pubs| * PURSUIT_ID_LEN + i * PURSUIT_ID_LEN..4 + |pubs| * PURSUIT_ID_LEN + (i + 1) * PURSUIT_ID_LEN] == subs[i]
    {
      NodeIdAt(middle, subs, last, i);
    }
  }

  lemma {:induction false} ConcatAt(parts: seq<Bytes>, i: nat)
    requires NodeIds(parts) && i < |parts|
    ensures |Concat(parts)| == |parts| * PURSUIT_ID_LEN && Concat(parts)[i * PURSUIT_ID_LEN..(i + 1) * PURSUIT_ID_LEN] == parts[i]
    decreases |parts|
  {
    ConcatLength(parts);
    var front := parts[..|parts| - 1];
    ConcatLength(front);
    if i < |front| {
      ConcatAt(front, i);
      assert Concat(parts)[i * PURSUIT_ID_LEN..(i + 1) * PURSUIT_ID_LEN] == Concat(front)[i * PURSUIT_ID_LEN..(i + 1) * PURSUIT_ID_LEN];
    }
  }

  /** The topology manager reads the publishers and subscribers. */
  method ReadNodes(request: Bytes, at: nat, count: nat, ghost parts: seq<Bytes>) returns (nodes: set<Bytes>)
    requires at <= |request| && |parts| == count && NodeIds(parts) && Concat(parts) <= request[at..]
    ensures forall x :: x in nodes <==> x in parts
  {
    hide Concat;
    nodes := {};
    ghost var tail := request[at..][|Concat(parts)|..];
    for i := 0 to count
      invariant forall x :: x in nodes <==> x in parts[..i]
    {
      NodeIdAt(request[..at], parts, tail, i);
      assert request == request[..at] + Concat(parts) + tail;
      nodes := nodes + {request[at + i * PURSUIT_ID_LEN..at + (i + 1) * PURSUIT_ID_LEN]};
      assert parts[..i + 1] == parts[..i] + [parts[i]];
    }
    assert parts[..count] == parts;
  }

  /** The topology manager takes the request apart; the identifiers are passed on as they are. */
  method HandleRequest(request: Bytes, ghost strategy: Byte, ghost pubs: seq<Bytes>, ghost subs: seq<Bytes>, ghost ids: seq<Bytes>)
    returns (requestType: Byte, strategyRead: Byte, publishers: set<Bytes>, subscribers: set<Bytes>, idsIndex: nat)
    requires Encodable(pubs, subs, ids) && request == Request(strategy, pubs, subs, ids)
    ensures requestType == MATCH_PUB_SUBS && strategyRead == strategy
    ensures (forall x :: x in publishers <==> x in pubs) && (forall x :: x in subscribers <==> x in subs)
    ensures idsIndex <= |request| && request[idsIndex..] == [|ids| % 256] + EncodeIds(ids)
    ensures idsIndex == 4 + |pubs| * PURSUIT_ID_LEN + |subs| * PURSUIT_ID_LEN
  {
    hide Concat, EncodeIds, NodeIds, AllIds, TotalBytes;
    ConcatLengths(pubs, subs);
    requestType, strategyRead := request[0], request[1];
    ghost var afterSubs := [|ids| % 256] + EncodeIds(ids);
    ghost var afterPubs := [|subs| % 256] + Concat(subs) + afterSubs;
    assert request[3..] == Concat(pubs) + afterPubs;
    publishers := ReadNodes(request, 3, request[2], pubs);
    var index := 3 + request[2] * PURSUIT_ID_LEN;
    assert request[index..] == afterPubs;
    var count := request[index];
    assert request[index + 1..] == Concat(subs) + afterSubs;
    subscribers := ReadNodes(request, index + 1, count, subs);
    idsIndex := index + 1 + count * PURSUIT_ID_LEN;
    assert request[idsIndex..] == afterSubs;
  }

  /** The response buffer is filled completely: the type, the identifiers as received, and the forwarding identifier if any. */
  method Respond(request: Bytes, idsIndex: nat, noPublishers: nat, noSubscribers: nat, fid: Bytes, ghost ids: seq<Bytes>)
    returns (response: array<Byte>)
    requires idsIndex == 4 + noPublishers * PURSUIT_ID_LEN + noSubscribers * PURSUIT_ID_LEN <= |request|
    requires request[idsIndex..] == [|ids| % 256] + EncodeIds(ids)
    ensures fresh(response) && response[..] == Response(ids, fid)
    ensures response.Length >= 2 && response[0] == if fid == [] then 101 else 100
  {
    hide EncodeIds;
    var responseSize := |request| - 1 - 1 - noPublishers * PURSUIT_ID_LEN - 1 - noSubscribers * PURSUIT_ID_LEN + |fid|;
    response := new Byte[responseSize](_ => 0);
    Put(response, 0, [if fid == [] then STOP_PUBLISH else START_PUBLISH]);
    Put(response, 1, request[idsIndex..]);
    Put(response, 1 + |request| - idsIndex, fid);
    assert response[..1 + |request| - idsIndex + |fid|] == response[..];
  }

  /** The local proxy reads the identifiers one by one, and for a start message what follows them. */
  method ReadNotification(p: Bytes, ghost ids: seq<Bytes>, ghost fid: Bytes) returns (start: bool, known: seq<Bytes>, fidRead: Bytes)
    requires AllIds(ids) && |ids| < 256 && TotalBytes(ids) < 256 && (fid == [] || |fid| == FID_LEN) && p == Response(ids, fid)
    ensures known == ids && start == (fid != []) && fidRead == fid
  {
    hide EncodeIds, LengthByte, IsId;
    var numberOfIds := p[1];
    var index := 0;
    known := [];
    NoParts();
    assert ids[..0] == [];
    for i := 0 to numberOfIds
      invariant known == ids[..i] && index == |EncodeIds(ids[..i])|
    {
      EncodedAt(ids, i + 1);
      PartOfTotal(ids, i);
      ByteLength(ids[i]);
      ghost var tail := EncodeIds(ids)[|EncodeIds(ids[..i + 1])|..] + fid;
      assert p == p[..2] + EncodeIds(ids[..i]) + [LengthByte(ids[i])] + ids[i] + tail;
      var idLength := p[2 + index];
      known := known + [p[2 + 1 + index..2 + 1 + index + idLength * PURSUIT_ID_LEN]];
      index := index + 1 + idLength * PURSUIT_ID_LEN;
      assert ids[..i + 1] == ids[..i] + [ids[i]];
    }
    assert ids[..numberOfIds] == ids;
    start := p[0] == START_PUBLISH;
    fidRead := if start then p[2 + index..2 + index + FID_LEN] else [];
  }

  /** From the rendezvous node over the topology manager to the proxy of one publisher. */
  method Deliver(strategy: Byte, pubs: seq<Bytes>, subs: seq<Bytes>, ids: seq<Bytes>, fid: Bytes)
    returns (strategyRead: Byte, publishers: set<Bytes>, subscribers: set<Bytes>, start: bool, known: seq<Bytes>, fidRead: Bytes)
    requires Encodable(pubs, subs, ids) && (fid == [] || |fid| == FID_LEN)
    ensures strategyRead == strategy
    ensures (forall x :: x in publishers <==> x in pubs) && (forall x :: x in subscribers <==> x in subs)
    ensures known == ids && start == (fid != []) && fidRead == fid
  {
    hide Request, Response, NodeIds, AllIds, TotalBytes, EncodeIds;
    var request := RequestTMAssistance(strategy, pubs, subs, ids);
    var requestType, idsIndex;
    requestType, strategyRead, publishers, subscribers, idsIndex := HandleRequest(request[..], strategy, pubs, subs, ids);
    var response := Respond(request[..], idsIndex, |pubs|, |subs|, fid, ids);
    start, known, fidRead := ReadNotification(response[..], ids, fid);
  }

  lemma ByteLength(id: Bytes)
    requires IsId(id) && |id| < 256
    ensures LengthByte(id) * PURSUIT_ID_LEN == |id|
  {
  }

  // ---------- the rendezvous node's own start message ----------

  /** A local start message is allocated by the real lengths, but each identifier is copied by its length byte. */
  function LocalAllocated(ids: seq<Bytes>): nat {
    2 + |ids| + TotalBytes(ids) + FID_LEN
  }

  function Copied(ids: seq<Bytes>): nat {
    if ids == [] then 0 else Copied(ids[..|ids| - 1]) + LengthByte(ids[|ids| - 1]) * PURSUIT_ID_LEN
  }

  /** The allocation is exact exactly if every identifier is shorter than 256 bytes. */
  lemma {:induction false} LocalAllocationExact(ids: seq<Bytes>)
    requires AllIds(ids)
    ensures Copied(ids) <= TotalBytes(ids)
    ensures LocalAllocated(ids) == 2 + |ids| + Copied(ids) + FID_LEN <==> forall i :: 0 <= i < |ids| ==> |ids[i]| < 256
  {
    hide LengthByte, IsId;
    if ids != [] {
      var n := |ids| - 1;
      var front := ids[..n];
      LocalAllocationExact(front);
      CopiedExact(ids[n]);
      assert forall i :: 0 <= i < n ==> front[i] == ids[i];
    }
  }

  lemma CopiedExact(id: Bytes)
    requires IsId(id)
    ensures LengthByte(id) * PURSUIT_ID_LEN <= |id|
    ensures LengthByte(id) * PURSUIT_ID_LEN == |id| <==> |id| < 256
  {
  }
}
