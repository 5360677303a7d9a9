/** The peer object (peer.cpp): each method is proved to compute the corresponding function of Protocol. */
module PeerNode {
  import opened ByteStrings
  import opened FiniteSets
  import opened Vertices
  import opened Framing
  import opened Batching
  import opened Protocol
  import opened ServerSide
  import opened Requests
  import opened Digest

  /** The most references of 64 bytes that a stream buffer can hold next to the other fields. */
  const MAX_ROW := 1023

  class Node {
    const c: Config
    const id: nat
    const server: Server
    /** The ids of the other peers (Client::peers). */
    const others: seq<nat>
    var round: nat
    var stop: int
    var dagImage: seq<set<Key>>
    var buffer: seq<Vertex>
    var requests: seq<Request>
    var leftover: set<Key>
    var blackList: set<nat>
    var asking: set<nat>
    ghost var status: Status
    ghost var scans: seq<Window>
    ghost var orders: seq<Window>

    /** The abstract state of the peer. */
    ghost function View(): (p: Peer)
      reads this, server, server.vertexMap
      ensures p == server.View(p)
    {
      Peer(status, round, stop, dagImage, server.vertexMap.content, server.tempList, server.tempRequestList,
           buffer, requests, leftover, blackList, asking, scans, orders)
    }

    ghost predicate Valid()
      reads this
    {
      && server.c == c
      && Distinct(others) && Elements(others) == c.peers - {id}
      && |dagImage| == Min(round, c.lastRound) && round <= c.lastRound + 1
    }

    constructor (c: Config, id: nat, others: seq<nat>)
      requires Distinct(others) && Elements(others) == c.peers - {id}
      ensures Valid() && View() == InitialPeer(c) && this.c == c && this.id == id
      ensures fresh(server) && fresh(server.vertexMap)
    {
      this.c, this.id, this.others := c, id, others;
      server := new Server(c);
      round, stop, dagImage, buffer, requests := 0, c.lastRound, [], [], [];
      leftover, blackList, asking := {}, {}, {};
      status, scans, orders := Running, [], [];
    }

    // ---- Rounds ----

    /** The guard at peer.cpp:124-127. */
    method CheckRoundGuard() returns (can: bool)
      requires Valid()
      ensures can <==> CanAdvance(c, View())
    {
      can := round <= c.lastRound && (round == 0 || |dagImage[round - 1]| >= 2 * Faults(c) + 1);
    }

    /** Advancing a round: wave work, then, up to the last round, a new vertex encoded for the broadcast. */
    method AdvanceRound(stream: array<Byte>) returns (size: nat, ghost refs: seq<Key>)
      requires Valid() && CanAdvance(c, View())
      requires round < c.lastRound ==> round + 1 < 0x8000_0000 && id < TWO_64 && stream.Length == MAX_STREAM_SIZE
      requires round > 0 ==> |dagImage[round - 1]| <= MAX_ROW && forall k :: k in dagImage[round - 1] ==> |k| == 64
      modifies this, server.vertexMap, stream
      ensures Valid()
      ensures old(round) < c.lastRound ==> ListsPreviousRow(c, old(View()), refs)
      ensures View() == Protocol.AdvanceRound(c, id, old(View()), refs)
      ensures old(round) < c.lastRound ==> IsMessage(NewVertex(round, id, refs), stream, size)
    {
      hide WaveWork, KeyOf, NewPayload, Representable, Encode, EncodedSize, WithLength;
      size, refs := 0, [];
      Waves();
      round := round + 1;
      if round <= c.lastRound {
        size, refs := CreateVertex(stream);
      }
    }

    /** The stream holds the vertex as it is broadcast, under the length of the message. */
    ghost predicate IsMessage(v: Vertex, stream: array<Byte>, size: nat)
      reads stream
    {
      Representable(v) && 28 <= EncodedSize(v) == size <= stream.Length && size < TWO_32 && stream[..size] == Framed(BE32(size), v)
    }

    /** peer.cpp:144-161: a new row holding the peer's own new vertex, which references the whole previous row. */
    method CreateVertex(stream: array<Byte>) returns (size: nat, ghost refs: seq<Key>)
      requires 1 <= round == |dagImage| + 1 < 0x8000_0000 && id < TWO_64 && stream.Length == MAX_STREAM_SIZE
      requires round > 1 ==> |dagImage[round - 2]| <= MAX_ROW && forall k :: k in dagImage[round - 2] ==> |k| == 64
      modifies this`dagImage, server.vertexMap, stream
      ensures if round == 1 then refs == [] else Distinct(refs) && Elements(refs) == old(dagImage)[round - 2]
      ensures dagImage == old(dagImage) + [{KeyOf(c, NewVertex(round, id, refs))}]
      ensures server.vertexMap.content
           == old(server.vertexMap.content)[KeyOf(c, NewVertex(round, id, refs)) := NewVertex(round, id, refs)]
      ensures IsMessage(NewVertex(round, id, refs), stream, size)
    {
      hide VertexKey, NewPayload, BE32, Representable, EncodedSize, Encode, Framed;
      dagImage := dagImage + [{}];
      var v := new VertexObject(round, id, NewPayload(round, id));
      if round > 1 {
        var added := v.AddRef(dagImage[round - 2], id);
        assert v.references[0..] == v.references;
        EnumerationSize(v.references, dagImage[round - 2]);
      }
      refs := v.references;
      var vertex := v.View();
      assert vertex == NewVertex(round, id, refs);
      server.vertexMap.Insert(KeyOf(c, vertex), vertex);
      dagImage := dagImage[round - 1 := dagImage[round - 1] + {KeyOf(c, vertex)}];
      assert {} + {KeyOf(c, vertex)} == {KeyOf(c, vertex)};
      NewVertexSize(vertex);
      size := Serialize(v, stream);
    }

    /** The serialised vertex with the length written over its first four bytes. */
    static method Serialize(v: VertexObject, stream: array<Byte>) returns (size: nat)
      requires Representable(v.View()) && 28 <= EncodedSize(v.View()) <= stream.Length && EncodedSize(v.View()) < TWO_32
      modifies stream
      ensures size == EncodedSize(v.View()) && stream[..size] == Framed(BE32(size), v.View())
    {
      hide Representable, EncodedSize, Body, BE32, WithLength;
      size := v.SerializeData(stream);
      FramedSize(Zeros(4), v.View());
      assert stream[..size] == Encode(v.View());
      AttachLength(stream, size);
      WithLengthOfEncode(v.View(), []);
      assert Encode(v.View()) + [] == Encode(v.View());
      assert Framed(BE32(size), v.View()) + [] == Framed(BE32(size), v.View());
    }

    /** A new vertex with at most 1023 references of 64 bytes fits the stream buffer. */
    static lemma NewVertexSize(v: Vertex)
      requires 0 <= v.round < 0x8000_0000 && v.pid < TWO_64 && v.payload == NewPayload(v.round, v.pid)
      requires |v.refs| <= MAX_ROW && forall i :: 0 <= i < |v.refs| ==> |v.refs[i]| == 64
      ensures Representable(v) && 28 <= EncodedSize(v) <= MAX_STREAM_SIZE
    {
      NewPayloadInert(v.round, v.pid);
      UniformLength(v.refs, 64);
    }

    /** peer.cpp:131-141. */
    method Waves()
      requires Valid() && round <= c.lastRound
      modifies this`asking, this`blackList, this`scans, this`orders
      ensures Valid() && View() == WaveWork(c, id, old(View()))
    {
      if round % WAVE == 0 && round > WAVE {
        DagScan(round - WAVE, round - 2 * WAVE);
      } else if round % WAVE == HALF_WAVE && round > 2 * WAVE {
        var finish := round - (WAVE + HALF_WAVE);
        TotalOrder(finish, finish - WAVE);
      }
    }

    /** peer.cpp:165-183. */
    method TimeOut()
      requires Valid() && !CanAdvance(c, View()) && round <= c.lastRound
      modifies this`stop, this`asking, this`scans
      ensures Valid() && View() == Protocol.TimeOut(c, old(View()))
    {
      if round == c.lastRound {
        stop := stop - 1;
      } else {
        DagScan(round, round - WAVE);
      }
    }

    /** Start a check_round thread for every sparse row of the window. */
    method DagScan(end: int, start: int)
      requires Valid() && end <= |dagImage|
      modifies this`asking, this`scans
      ensures Valid() && View() == Protocol.DagScan(c, old(View()), end, start)
    {
      var first := start;
      if first < 0 { first := 0; }
      var i := first;
      while i < end
        invariant first <= i && (i <= end || i == first)
        invariant asking == old(asking) + SparseRows(c, dagImage, first, if i <= end then i else end)
        invariant scans == old(scans)
      {
        if |dagImage[i]| < Crowd(c) { asking := asking + {i}; }
        i := i + 1;
      }
      scans := scans + [Window(round, first, end)];
    }

    /** Blacklist the peers whose vertex is missing from a sparse row of the window. */
    method TotalOrder(end: int, start: int)
      requires Valid() && 0 <= start && end <= |dagImage|
      modifies this`blackList, this`orders
      ensures Valid() && View() == Protocol.TotalOrder(c, id, old(View()), end, start)
    {
      hide VertexKey, Crowd;
      var i := start;
      while i < end
        invariant start <= i && (i <= end || i == start)
        invariant orders == old(orders)
        invariant i <= end ==> blackList == old(blackList) + Silent(c, id, dagImage, start, i)
        invariant i > end ==> blackList == old(blackList)
      {
        if |dagImage[i]| < Crowd(c) {
          BlackListRow(i);
        }
        SilentStep(i, start);
        i := i + 1;
      }
      orders := orders + [Window(round, start, end)];
    }

    /** Blacklist the other peers whose vertex of one row is missing. */
    method BlackListRow(row: nat)
      requires Valid() && row < |dagImage|
      modifies this`blackList
      ensures blackList == old(blackList) + set q | q in c.peers - {id} && VertexKey(c, row + 1, q) !in dagImage[row]
    {
      hide VertexKey;
      var j := 0;
      while j < |others|
        invariant 0 <= j <= |others|
        invariant blackList == old(blackList) + set q | q in others[..j] && VertexKey(c, row + 1, q) !in dagImage[row]
      {
        var peerId := others[j];
        if VertexKey(c, row + 1, peerId) !in dagImage[row] { blackList := blackList + {peerId}; }
        assert others[..j + 1] == others[..j] + [peerId];
        j := j + 1;
      }
      assert forall q :: q in others[..j] <==> q in c.peers - {id};
    }

    lemma SilentStep(i: int, start: int)
      requires 0 <= start <= i < |dagImage|
      ensures Silent(c, id, dagImage, start, i + 1) == Silent(c, id, dagImage, start, i)
                + if |dagImage[i]| < Crowd(c) then set q | q in c.peers - {id} && VertexKey(c, i + 1, q) !in dagImage[i] else {}
    {
      hide VertexKey, Crowd;
      forall q | q in Silent(c, id, dagImage, start, i + 1)
        ensures q in Silent(c, id, dagImage, start, i) || (|dagImage[i]| < Crowd(c) && VertexKey(c, i + 1, q) !in dagImage[i])
      {
        var k: nat :| start <= k < i + 1 && |dagImage[k]| < Crowd(c) && VertexKey(c, k + 1, q) !in dagImage[k];
      }
    }

    /** The peers whose vertex of the row is to be asked for: not blacklisted and not in the map (peer.cpp:391-419). */
    method CheckRound(row: nat) returns (missing: seq<nat>)
      requires Valid()
      ensures Distinct(missing)
      ensures Elements(missing)
           == set q | q in c.peers && q != id && q !in blackList && VertexKey(c, row + 1, q) !in server.vertexMap.content
    {
      missing := [];
      var j := 0;
      while j < |others|
        invariant 0 <= j <= |others| && Distinct(missing)
        invariant Elements(missing) == set q | q in others[..j] && q !in blackList && VertexKey(c, row + 1, q) !in server.vertexMap.content
      {
        var peerId := others[j];
        assert others[..j + 1] == others[..j] + [peerId];
        if peerId !in blackList {
          var found := server.vertexMap.Find(VertexKey(c, row + 1, peerId));
          if found == None {
            assert peerId !in others[..j];
            assert Elements(missing + [peerId]) == Elements(missing) + {peerId};
            missing := missing + [peerId];
          }
        }
        j := j + 1;
      }
      assert forall q :: q in others[..j] <==> q in c.peers - {id};
    }

    /** A check_round thread: one request for every missing vertex of the row. `shuffled` are the sockets, named by the peers
        at the other end, in the order each request finds them in. */
    method AskRow(row: nat, shuffled: seq<seq<nat>>) returns (asked: seq<nat>, sends: seq<seq<Send>>)
      requires Valid() && row in asking && |shuffled| == |others|
      requires forall i :: 0 <= i < |shuffled| ==>
                 Distinct(shuffled[i]) && Elements(shuffled[i]) <= c.peers - {id} && |shuffled[i]| >= Faults(c) + 1
      ensures Distinct(asked) && Elements(asked)
           == set q | q in c.peers && q != id && q !in blackList && VertexKey(c, row + 1, q) !in server.vertexMap.content
      ensures |sends| == |asked|
      ensures forall i :: 0 <= i < |sends| ==> AskOk(c, id, View(), row, asked[i], Elements(Recipients(sends[i])))
    {
      hide VertexKey, Faults;
      asked := CheckRound(row);
      sends := [];
      EnumerationSize(asked, Elements(asked));
      EnumerationSize(others, Elements(others));
      SubsetSize(Elements(asked), Elements(others));
      while |sends| < |asked|
        invariant |sends| <= |asked|
        invariant forall i :: 0 <= i < |sends| ==> AskOk(c, id, View(), row, asked[i], Elements(Recipients(sends[i])))
      {
        var target, sockets := asked[|sends|], shuffled[|sends|];
        assert target in Elements(asked);
        var tasks, freed := MakeRequest(Faults(c), sockets, target);
        SubsetOfSockets(Recipients(tasks), sockets, target);
        EnumerationSize(Recipients(tasks), Elements(Recipients(tasks)));
        sends := sends + [tasks];
      }
    }

    static lemma SubsetOfSockets(recipients: seq<nat>, sockets: seq<nat>, owner: nat)
      requires |sockets| >= 1
      requires exists n :: 0 <= n <= |sockets| && (recipients == sockets[..n] || recipients == sockets[..n] + [owner])
      ensures Elements(recipients) <= Elements(sockets) + {owner}
    {
    }

    // ---- The critical section ----

    /** What the server does under the mutex: its lists go to the end of the shared ones. */
    method HandOver()
      modifies this`buffer, this`requests, server
      ensures View() == Protocol.HandOff(old(View()))
    {
      buffer := buffer + server.tempList;
      requests := requests + server.tempRequestList;
      server.tempList, server.tempRequestList := [], [];
    }

    /** peer.cpp:274-289: are all references in the previous row, and what is left of that row without them? */
    method MutualHistory(vRound: int, vRefs: seq<Key>) returns (ok: bool, tempSet: set<Key>)
      requires 2 <= vRound && vRound - 2 < |dagImage|
      ensures ok <==> forall r :: r in vRefs ==> r in dagImage[vRound - 2]
      ensures tempSet == if ok then dagImage[vRound - 2] - Elements(vRefs) else {}
    {
      var row := dagImage[vRound - 2];
      tempSet := row;
      var i := 0;
      while i < |vRefs|
        invariant 0 <= i <= |vRefs|
        invariant forall k :: 0 <= k < i ==> vRefs[k] in row
        invariant tempSet == row - Elements(vRefs[..i])
      {
        if vRefs[i] !in row {
          assert vRefs[i] in vRefs;
          return false, {};
        }
        assert vRefs[..i + 1] == vRefs[..i] + [vRefs[i]];
        tempSet := tempSet - {vRefs[i]};
        i := i + 1;
      }
      assert vRefs[..i] == vRefs;
      ok := true;
    }

    /** One pass over the buffer, erasing accepted vertices in place; `coins` are the random draws. */
    method ScanBuffer(coins: seq<bool>) returns (repairs: seq<Repair>)
      requires Valid() && AllIndexable(round, dagImage, buffer) && |coins| == |buffer|
      modifies this`dagImage, this`buffer, this`leftover
      ensures Valid()
      ensures Pass(dagImage, buffer, leftover, repairs) == Protocol.ScanBuffer(c, old(View()), coins)
    {
      hide KeyOf, ScanAll, ScanOne;
      repairs := [];
      var it, drawn := 0, 0;
      ghost var result := Protocol.ScanBuffer(c, View(), coins);
      assert buffer[..0] == [] && buffer[0..] == buffer && coins[0..] == coins;
      while it < |buffer|
        invariant 0 <= it <= |buffer| && drawn + |buffer| - it == |coins| && drawn >= 0
        invariant |dagImage| == old(|dagImage|)
        invariant AllIndexable(round, dagImage, buffer[it..])
        invariant result == ScanAll(c, round, Pass(dagImage, buffer[..it], leftover, repairs), buffer[it..], coins[drawn..])
        decreases |buffer| - it
      {
        var v := buffer[it];
        ghost var p, todo, draws := Pass(dagImage, buffer[..it], leftover, repairs), buffer[it..], coins[drawn..];
        assert v == todo[0] && Indexable(round, dagImage, todo[0]);
        ScanAllStep(p, todo, draws);
        var accepted := false;
        if round >= v.round {
          if v.round == 1 {
            accepted := true;
          } else {
            accepted, leftover := MutualHistory(v.round, v.refs);
          }
        }
        if accepted {
          if leftover != {} && coins[drawn] {
            repairs := repairs + [Repair(v.pid, leftover)];
            leftover := {};
          }
          dagImage := dagImage[v.round - 1 := dagImage[v.round - 1] + {KeyOf(c, v)}];
          ghost var prefix := buffer[..it];
          buffer := buffer[..it] + buffer[it + 1..];
          assert buffer[..it] == prefix && buffer[it..] == todo[1..];
        } else {
          assert buffer[..it + 1] == buffer[..it] + [v] && buffer[it + 1..] == todo[1..];
          it := it + 1;
        }
        drawn := drawn + 1;
        assert coins[drawn..] == draws[1..];
        ScanOneCases(p, v, draws[0]);
        assert Pass(dagImage, buffer[..it], leftover, repairs) == ScanOne(c, round, p, v, draws[0]);
      }
      ScanAllNone(Pass(dagImage, buffer[..it], leftover, repairs), buffer[it..], coins[drawn..]);
      assert buffer[it..] == [] && buffer[..it] == buffer;
    }

    lemma ScanAllNone(p: Pass, todo: seq<Vertex>, draws: seq<bool>)
      requires todo == [] && |draws| == |todo|
      ensures ScanAll(c, round, p, todo, draws) == p
    {
    }

    lemma ScanAllStep(p: Pass, todo: seq<Vertex>, draws: seq<bool>)
      requires AllIndexable(round, p.dag, todo) && todo != [] && |draws| == |todo|
      ensures |ScanOne(c, round, p, todo[0], draws[0]).dag| == |p.dag|
      ensures AllIndexable(round, p.dag, todo[1..])
      ensures ScanAll(c, round, p, todo, draws) == ScanAll(c, round, ScanOne(c, round, p, todo[0], draws[0]), todo[1..], draws[1..])
    {
    }

    /** ScanOne, with its branches as the loop takes them. */
    lemma ScanOneCases(p: Pass, v: Vertex, coin: bool)
      requires Indexable(round, p.dag, v)
      ensures !Acceptable(round, p.dag, v) ==>
                ScanOne(c, round, p, v, coin) == Pass(p.dag, p.kept + [v], if round >= v.round then {} else p.leftover, p.repairs)
      ensures Acceptable(round, p.dag, v) ==>
                var left := if v.round == 1 then p.leftover else p.dag[v.round - 2] - Elements(v.refs);
                var sent := left != {} && coin;
                ScanOne(c, round, p, v, coin) == Pass(p.dag[v.round - 1 := p.dag[v.round - 1] + {KeyOf(c, v)}], p.kept,
                  if sent then {} else left, if sent then p.repairs + [Repair(v.pid, left)] else p.repairs)
    {
    }

    /** After a wake-up: every request is taken off the list and answered, then the buffer is scanned. */
    method WakeUp(coins: seq<bool>) returns (answers: seq<Request>, repairs: seq<Repair>)
      requires Valid() && AllIndexable(round, dagImage, buffer) && |coins| == |buffer|
      modifies this`requests, this`dagImage, this`buffer, this`leftover
      ensures Valid() && answers == old(requests)
      ensures repairs == Protocol.ScanBuffer(c, old(View()), coins).repairs
      ensures View() == Protocol.WakeUp(c, old(View()), coins)
    {
      answers := [];
      while requests != []
        invariant answers + requests == old(requests)
        invariant View() == old(View()).(requests := requests)
        decreases |requests|
      {
        answers := answers + [requests[0]];
        requests := requests[1..];
      }
      repairs := ScanBuffer(coins);
    }

    // ---- Sending ----

    /** Draining the set of missing vertices into packets (peer.cpp:318-374). */
    method SendMissingVertices(referenceSet: set<Key>) returns (packets: seq<Bytes>)
      requires referenceSet <= server.vertexMap.content.Keys
      requires forall k :: k in referenceSet ==>
                 Representable(server.vertexMap.content[k]) && EncodedSize(server.vertexMap.content[k]) <= MAX_STREAM_SIZE
      ensures exists order :: Drained(server.vertexMap.content, referenceSet, order, packets)
    {
      hide Packed, Representable, EncodedSize, Encode, WithLength, Batches, Packets, Sendable;
      ghost var vmap := server.vertexMap.content;
      packets := [];
      ghost var order: seq<Key> := [];
      var left := referenceSet;
      var packetStream: Bytes := [];
      var packetSize: nat := 0;
      PackedNone();
      assert Fetch(vmap, order) == [];
      while left != {}
        invariant left <= referenceSet && Distinct(order) && Elements(order) == referenceSet - left
        invariant forall i :: 0 <= i < |order| ==> order[i] in vmap
        invariant Packed(Fetch(vmap, order), packets, packetStream, packetSize)
        decreases left
      {
        var k :| k in left;
        left := left - {k};
        var found := server.vertexMap.Find(k);
        var vertexStream, streamSize := Encoded(found.value);
        PackedSnoc(Fetch(vmap, order), packets, packetStream, packetSize, found.value);
        assert Fetch(vmap, order + [k]) == Fetch(vmap, order) + [found.value];
        assert k !in Elements(order) && Elements(order + [k]) == Elements(order) + {k};
        order := order + [k];
        packetSize := packetSize + streamSize;
        packetStream := packetStream + vertexStream;
        if packetSize >= PACKET_LIMIT {
          packets := packets + [WithLength(packetStream)];
          packetStream, packetSize := [], 0;
        }
      }
      PackedDone(Fetch(vmap, order), packets, packetStream, packetSize);
      if packetStream != [] {
        packets := packets + [WithLength(packetStream)];
      }
      assert referenceSet - left == referenceSet;
      assert Drained(vmap, referenceSet, order, packets);
    }

    /** The packets are the batches of the vertices stored under the keys of the set, each key taken once, in this order. */
    static ghost predicate Drained(vmap: map<Key, Vertex>, keys: set<Key>, order: seq<Key>, packets: seq<Bytes>) {
      && Distinct(order) && Elements(order) == keys
      && (forall i :: 0 <= i < |order| ==> order[i] in vmap)
      && Sendable(Batches(Fetch(vmap, order))) && packets == Packets(Batches(Fetch(vmap, order)))
    }

    /** The state of the packing loop once the vertices `vs` have been taken out of the set. */
    static ghost predicate Packed(vs: seq<Vertex>, packets: seq<Bytes>, packetStream: Bytes, packetSize: nat) {
      var packing := Pack(vs);
      && Sendable(packing.closed) && packets == Packets(packing.closed)
      && AllRepresentable(packing.open) && packetStream == Stream(Zeros(4), packing.open)
      && packetSize == StreamSize(packing.open) < PACKET_LIMIT
    }

    static lemma PackedNone()
      ensures Packed([], [], [], 0)
    {
    }

    static lemma PackedSnoc(vs: seq<Vertex>, packets: seq<Bytes>, packetStream: Bytes, packetSize: nat, v: Vertex)
      requires Packed(vs, packets, packetStream, packetSize) && Representable(v) && EncodedSize(v) <= MAX_STREAM_SIZE
      ensures var stream, size := packetStream + Encode(v), packetSize + EncodedSize(v);
              if size >= PACKET_LIMIT then 4 <= |stream| < TWO_32 && Packed(vs + [v], packets + [WithLength(stream)], [], 0)
              else Packed(vs + [v], packets, stream, size)
    {
      hide Pack, Stream, Framed, Packet, Packets, Sendable, Representable, EncodedSize, WithLength;
      var packing := Pack(vs);
      var open := packing.open + [v];
      PackSnoc(vs, v);
      assert forall i :: 0 <= i < |open| ==> Representable(open[i]);
      StreamSnoc(Zeros(4), packing.open, v);
      StreamLength(Zeros(4), open);
      assert open[..|packing.open|] == packing.open;
      assert Stream(Zeros(4), open) == packetStream + Encode(v);
      assert StreamSize(open) == packetSize + EncodedSize(v);
      if StreamSize(open) >= PACKET_LIMIT {
        SendableSnoc(packing.closed, open);
        PacketIs(open);
        EmptyStream();
      }
    }

    static lemma EmptyStream()
      ensures Stream(Zeros(4), []) == [] && StreamSize([]) == 0
    {
    }

    static lemma PacketIs(batch: seq<Vertex>)
      requires batch != [] && AllRepresentable(batch) && StreamSize(batch) < TWO_32
      ensures 4 <= |Stream(Zeros(4), batch)| < TWO_32 && Packet(batch) == WithLength(Stream(Zeros(4), batch))
    {
      StreamLength(Zeros(4), batch);
    }

    static lemma PackedDone(vs: seq<Vertex>, packets: seq<Bytes>, packetStream: Bytes, packetSize: nat)
      requires Packed(vs, packets, packetStream, packetSize)
      ensures Sendable(Batches(vs))
      ensures packetStream == [] ==> packets == Packets(Batches(vs))
      ensures packetStream != [] ==> 4 <= |packetStream| < TWO_32 && packets + [WithLength(packetStream)] == Packets(Batches(vs))
    {
      hide Pack, Stream, StreamSize, Packet, Packets, Sendable, Representable, EncodedSize, WithLength;
      var packing := Pack(vs);
      StreamLength(Zeros(4), packing.open);
      EmptyStream();
      if packing.open != [] {
        SendableSnoc(packing.closed, packing.open);
        PacketIs(packing.open);
      }
    }

    /** One vertex through the serialisation buffer. */
    method Encoded(v: Vertex) returns (bytes: Bytes, size: nat)
      requires Representable(v) && EncodedSize(v) <= MAX_STREAM_SIZE
      ensures bytes == Encode(v) && size == EncodedSize(v)
    {
      var vertexStream := new Byte[MAX_STREAM_SIZE](_ => 0);
      var vertex := new VertexObject(v.round, v.pid, v.payload);
      vertex.references := v.refs;
      size := vertex.SerializeData(vertexStream);
      bytes := vertexStream[..size];
      FramedSize(Zeros(4), v);
    }

    static predicate Sendable(batches: seq<seq<Vertex>>) {
      forall k :: 0 <= k < |batches| ==> batches[k] != [] && AllRepresentable(batches[k]) && StreamSize(batches[k]) < TWO_32
    }

    static lemma SendableSnoc(batches: seq<seq<Vertex>>, last: seq<Vertex>)
      requires Sendable(batches) && last != [] && AllRepresentable(last) && StreamSize(last) < TWO_32
      ensures Sendable(batches + [last])
      ensures Packets(batches + [last]) == Packets(batches) + [Packet(last)]
    {
      hide Packet;
    }

    // ---- The digest ----

    /** hash_dag of this peer's DAG; it needs three waves of rows. */
    method HashDag() returns (output: Bytes)
      requires |dagImage| >= 3 * WAVE
      ensures output == DagDigest(c, dagImage)
    {
      output := Digest.HashDag(c, dagImage);
    }
  }
}
