/** Packing missing vertices into packets (peer.cpp, send_missing_vertices) and unpacking them at the other end. */
module Batching {
  import opened ByteStrings
  import opened Vertices
  import opened Framing

  const PACKET_LIMIT := 40000

  function StreamSize(vs: seq<Vertex>): nat {
    if vs == [] then 0 else StreamSize(vs[..|vs| - 1]) + EncodedSize(vs[|vs| - 1])
  }

  /** Packets already closed, and the vertices of the packet still being filled. */
  datatype Packing = Packing(closed: seq<seq<Vertex>>, open: seq<Vertex>)

  /** The packing after the vertices of `order` have been taken out of the set one by one. */
  function Pack(order: seq<Vertex>): Packing {
    if order == [] then Packing([], []) else
      var p := Pack(order[..|order| - 1]);
      var open := p.open + [order[|order| - 1]];
      if StreamSize(open) >= PACKET_LIMIT then Packing(p.closed + [open], []) else Packing(p.closed, open)
  }

  function Batches(order: seq<Vertex>): seq<seq<Vertex>> {
    var p := Pack(order);
    if p.open == [] then p.closed else p.closed + [p.open]
  }

  function Flatten(batches: seq<seq<Vertex>>): seq<Vertex> {
    if batches == [] then [] else Flatten(batches[..|batches| - 1]) + batches[|batches| - 1]
  }

  lemma FlattenSnoc(batches: seq<seq<Vertex>>, last: seq<Vertex>)
    ensures Flatten(batches + [last]) == Flatten(batches) + last
  {
    assert (batches + [last])[..|batches|] == batches;
  }

  lemma PackSnoc(front: seq<Vertex>, v: Vertex)
    ensures Pack(front + [v]) == var p := Pack(front);
              if StreamSize(p.open + [v]) >= PACKET_LIMIT then Packing(p.closed + [p.open + [v]], [])
              else Packing(p.closed, p.open + [v])
  {
    assert (front + [v])[..|front|] == front;
  }

  lemma Regroup<T>(a: seq<T>, b: seq<T>, c: seq<T>)
    ensures a + b + c == a + (b + c) && a + (b + c) + [] == a + (b + c)
  {
  }

  lemma {:induction false} PackKeeps(order: seq<Vertex>)
    ensures Flatten(Pack(order).closed) + Pack(order).open == order
  {
    if order != [] {
      hide Pack, Flatten, StreamSize;
      var front, v := order[..|order| - 1], order[|order| - 1];
      var p := Pack(front);
      PackKeeps(front);
      assert order == front + [v];
      PackSnoc(front, v);
      FlattenSnoc(p.closed, p.open + [v]);
      Regroup(Flatten(p.closed), p.open, [v]);
    }
  }

  /** No vertex is lost, repeated or reordered by packing. */
  lemma BatchesKeep(order: seq<Vertex>)
    ensures Flatten(Batches(order)) == order
  {
    PackKeeps(order);
    FlattenSnoc(Pack(order).closed, Pack(order).open);
  }

  lemma {:induction false} PackBounds(order: seq<Vertex>, most: nat)
    requires forall i :: 0 <= i < |order| ==> EncodedSize(order[i]) <= most
    ensures StreamSize(Pack(order).open) < PACKET_LIMIT
    ensures forall k :: 0 <= k < |Pack(order).closed| ==>
              Pack(order).closed[k] != [] && PACKET_LIMIT <= StreamSize(Pack(order).closed[k]) < PACKET_LIMIT + most
  {
    if order != [] {
      var front, v := order[..|order| - 1], order[|order| - 1];
      var p := Pack(front);
      PackBounds(front, most);
      assert (p.open + [v])[..|p.open|] == p.open;
    }
  }

  /** Every packet is non-empty and shorter than the limit plus one encoding; only the last may be below the limit. */
  lemma BatchBounds(order: seq<Vertex>, most: nat)
    requires forall i :: 0 <= i < |order| ==> EncodedSize(order[i]) <= most
    ensures forall k :: 0 <= k < |Batches(order)| ==> Batches(order)[k] != [] && StreamSize(Batches(order)[k]) < 40000 + most
    ensures forall k :: 0 <= k < |Batches(order)| - 1 ==> StreamSize(Batches(order)[k]) >= 40000
  {
    hide Pack, StreamSize;
    PackBounds(order, most);
    var p, all := Pack(order), Batches(order);
    forall k | 0 <= k < |all| ensures all[k] != [] && StreamSize(all[k]) < PACKET_LIMIT + most {
      assert k < |p.closed| ==> all[k] == p.closed[k];
    }
    forall k | 0 <= k < |all| - 1 ensures StreamSize(all[k]) >= PACKET_LIMIT {
      assert all[k] == p.closed[k];
    }
  }

  lemma {:induction false} FlattenMember(batches: seq<seq<Vertex>>, k: nat, i: nat)
    requires k < |batches| && i < |batches[k]|
    ensures batches[k][i] in Flatten(batches)
  {
    if k < |batches| - 1 {
      FlattenMember(batches[..|batches| - 1], k, i);
    }
  }

  /** What travels in the packets comes from the list. */
  lemma BatchMember(order: seq<Vertex>, k: nat, i: nat)
    requires k < |Batches(order)| && i < |Batches(order)[k]|
    ensures Batches(order)[k][i] in order
  {
    BatchesKeep(order);
    FlattenMember(Batches(order), k, i);
  }

  // ---- Packets as bytes ----

  lemma {:induction false} StreamSnoc(word: Bytes, vs: seq<Vertex>, v: Vertex)
    requires |word| == 4 && AllRepresentable(vs + [v]) && AllRepresentable(vs) && Representable(v)
    ensures Stream(word, vs + [v]) == Stream(word, vs) + Framed(if vs == [] then word else Zeros(4), v)
    decreases |vs|
  {
    hide Framed;
    if vs == [] {
      assert (vs + [v])[1..] == [];
    } else {
      assert (vs + [v])[1..] == vs[1..] + [v];
      StreamSnoc(Zeros(4), vs[1..], v);
      assert Framed(word, vs[0]) + (Stream(Zeros(4), vs[1..]) + Framed(Zeros(4), v))
          == Framed(word, vs[0]) + Stream(Zeros(4), vs[1..]) + Framed(Zeros(4), v);
    }
  }

  lemma {:induction false} StreamLength(word: Bytes, vs: seq<Vertex>)
    requires |word| == 4 && AllRepresentable(vs)
    ensures |Stream(word, vs)| == StreamSize(vs)
    ensures vs != [] ==> |Stream(word, vs)| >= 28
    decreases |vs|
  {
    if vs != [] {
      var front, v := vs[..|vs| - 1], vs[|vs| - 1];
      assert vs == front + [v] && Representable(vs[|vs| - 1]);
      StreamLength(word, front);
      StreamSnoc(word, front, v);
      FramedSize(if front == [] then word else Zeros(4), v);
    }
  }

  /** The bytes of one packet: the encodings, with the packet length written over the first length word. */
  function Packet(batch: seq<Vertex>): Bytes
    requires batch != [] && AllRepresentable(batch) && StreamSize(batch) < TWO_32
  {
    StreamLength(Zeros(4), batch);
    WithLength(Stream(Zeros(4), batch))
  }

  lemma PacketStream(batch: seq<Vertex>)
    requires batch != [] && AllRepresentable(batch) && StreamSize(batch) < TWO_32
    ensures Packet(batch) == Stream(BE32(StreamSize(batch)), batch)
    ensures |Packet(batch)| == StreamSize(batch)
  {
    hide BE32, Framed, WithLength, EncodedSize;
    var rest := Stream(Zeros(4), batch[1..]);
    var word := BE32(StreamSize(batch));
    StreamLength(Zeros(4), batch);
    StreamLength(word, batch);
    FramedSize(Zeros(4), batch[0]);
    assert Stream(Zeros(4), batch) == Encode(batch[0]) + rest;
    assert Stream(word, batch) == Framed(word, batch[0]) + rest;
    hide Stream, StreamSize, Encode;
    WithLengthOfEncode(batch[0], rest);
  }

  /** The packet's headers contain no accidental delimiter. */
  predicate CleanPacket(batch: seq<Vertex>)
    requires AllRepresentable(batch) && StreamSize(batch) < TWO_32
  {
    CleanStream(BE32(StreamSize(batch)), batch)
  }

  /** One packet arrives as the vertices that were put in exactly when its headers are clean. */
  lemma PacketRoundTrip(batch: seq<Vertex>)
    requires batch != [] && AllBuilt(batch) && FitChunks(batch) && StreamSize(batch) < TWO_32
    requires forall i :: 0 <= i < |batch| ==> batch[i].payload != []
    ensures Receive(Packet(batch)) == Some(batch) <==> CleanPacket(batch)
  {
    PacketStream(batch);
    ReceiveStream(BE32(StreamSize(batch)), batch);
  }

  // ---- Sizes in a deployment ----

  /** The largest crowd whose packets always fit the 65536-byte stream buffers. */
  const MAX_CROWD := 398

  lemma {:induction false} DecimalLength(n: nat, digits: nat, power: nat)
    requires digits > 0 && power == Power10(digits) && n < power
    ensures |Decimal(n)| <= digits
    decreases digits
  {
    if n >= 10 {
      assert digits > 1;
      DecimalLength(n / 10, digits - 1, Power10(digits - 1));
    }
  }

  function Power10(k: nat): nat {
    if k == 0 then 1 else 10 * Power10(k - 1)
  }

  /** The payload of a new vertex (peer.cpp:150). */
  function NewPayload(round: nat, pid: nat): Bytes {
    Decimal(round) + [45] + Decimal(pid)
  }

  lemma NewPayloadInert(round: nat, pid: nat)
    requires round < 0x8000_0000 && pid < TWO_64
    ensures Inert(NewPayload(round, pid)) && |NewPayload(round, pid)| <= 31
  {
    var tens := Power10(10);
    assert Power10(5) == 100000;
    assert Power10(10) == 10000000000;
    assert Power10(15) == 1000000000000000;
    assert Power10(20) == 100000000000000000000;
    DecimalLength(round, 10, Power10(10));
    DecimalLength(pid, 20, Power10(20));
    var sep: Bytes := [45];
    assert forall b :: b in Decimal(round) ==> IsDigit(b);
    assert forall b :: b in Decimal(pid) ==> IsDigit(b);
  }

  /** A vertex of the protocol with hexadecimal digests as references is protocol-built, and within a crowd of 398
      its packets stay inside the stream buffers. */
  lemma NewVertexFits(v: Vertex)
    requires 0 <= v.round < 0x8000_0000 && v.pid < TWO_64
    requires v.payload == NewPayload(v.round, v.pid) && |v.refs| <= MAX_CROWD
    requires forall i :: 0 <= i < |v.refs| ==> Inert(v.refs[i]) && |v.refs[i]| == 64
    ensures Built(v) && EncodedSize(v) <= MAX_STREAM_SIZE - PACKET_LIMIT
  {
    NewPayloadInert(v.round, v.pid);
    UniformLength(v.refs, 64);
  }

  /** Which headers are clean, for the packet sizes of a deployment, in terms of the bytes of the size, the round and the id.
      Below round 8960 it comes to this: no two '#' bytes three apart inside the peer id, and not both a round ending in
      byte 35 and a '#' as third byte of the id. */
  lemma CleanHeaderExactly(size: nat, v: Vertex)
    requires size <= MAX_STREAM_SIZE && 0 <= v.round && Representable(v)
    ensures var word, round, id := BE32(size), BE32(v.round), BE64(v.pid);
            CleanHeader(word, v) <==>
              && (forall i :: 0 <= i < 5 ==> !(id[i] == HASH && id[i + 3] == HASH))
              && (forall i :: 0 <= i < 3 ==> !(round[i + 1] == HASH && id[i] == HASH))
              && !(round[0] == HASH && round[3] == HASH)
              && !(word[3] == HASH && round[2] == HASH) && !(word[2] == HASH && round[1] == HASH)
    ensures v.round < 8960 ==>
              (CleanHeader(BE32(size), v) <==>
                && (forall i :: 0 <= i < 5 ==> !(BE64(v.pid)[i] == HASH && BE64(v.pid)[i + 3] == HASH))
                && !(v.round % 256 == 35 && BE64(v.pid)[2] == HASH))
  {
    var word, round, id := BE32(size), BE32(v.round), BE64(v.pid);
    assert word[0] == 0 && word[1] <= 1;
    assert v.round < 8960 ==> round[0] == 0 && round[1] == 0 && round[2] < 35 && round[3] == v.round % 256;
    hide BE32, BE64;
    HeaderFires(word, v);
    hide CleanHeader;
    assert (forall i :: 0 <= i < 3 ==> !(round[i + 1] == HASH && id[i] == HASH))
      <==> !(round[1] == HASH && id[0] == HASH) && !(round[1 + 1] == HASH && id[1] == HASH) && !(round[2 + 1] == HASH && id[2] == HASH);
  }

  /** The pairs of header bytes three apart. */
  lemma HeaderFires(word: Bytes, v: Vertex)
    requires |word| == 4 && 0 <= v.round && Representable(v)
    ensures var round, id := BE32(v.round), BE64(v.pid);
            CleanHeader(word, v) <==>
              && !(word[0] == HASH && word[3] == HASH) && !(word[1] == HASH && round[0] == HASH)
              && !(word[2] == HASH && round[1] == HASH) && !(word[3] == HASH && round[2] == HASH)
              && !(round[0] == HASH && round[3] == HASH)
              && (forall i :: 0 <= i < 3 ==> !(round[i + 1] == HASH && id[i] == HASH))
              && (forall i :: 0 <= i < 5 ==> !(id[i] == HASH && id[i + 3] == HASH))
  {
    var round, id, h := BE32(v.round), BE64(v.pid), Header(word, v);
    HeaderBytes(word, v);
    hide BE32, BE64, Header;
    forall i | 0 <= i < 3 ensures Fires(h, i + 5) <==> round[i + 1] == HASH && id[i] == HASH {
      assert h[i + 1 + 4] == round[i + 1] && h[i + 8] == id[i];
    }
    forall i | 0 <= i < 5 ensures Fires(h, i + 8) <==> id[i] == HASH && id[i + 3] == HASH {
      assert h[i + 8] == id[i] && h[i + 3 + 8] == id[i + 3];
    }
    assert h[0 + 4] == round[0] && h[1 + 4] == round[1] && h[2 + 4] == round[2] && h[3 + 4] == round[3];
    if CleanHeader(word, v) {
      assert !Fires(h, 0) && !Fires(h, 1) && !Fires(h, 2) && !Fires(h, 3) && !Fires(h, 4);
      forall i | 0 <= i < 3 ensures !(round[i + 1] == HASH && id[i] == HASH) { assert !Fires(h, i + 5); }
      forall i | 0 <= i < 5 ensures !(id[i] == HASH && id[i + 3] == HASH) { assert !Fires(h, i + 8); }
    } else {
      var i :| 0 <= i < 13 && Fires(h, i);
      if i > 7 { assert Fires(h, i - 8 + 8); } else if i > 4 { assert Fires(h, i - 5 + 5); }
    }
  }

  lemma HeaderBytes(word: Bytes, v: Vertex)
    requires |word| == 4 && 0 <= v.round && Representable(v)
    ensures forall i :: 0 <= i < 4 ==> Header(word, v)[i] == word[i] && Header(word, v)[i + 4] == BE32(v.round)[i]
    ensures forall i :: 0 <= i < 8 ==> Header(word, v)[i + 8] == BE64(v.pid)[i]
  {
    hide BE32, BE64;
  }

  // ---- Ids whose vertices can be forged by their own encoding ----

  /** Peer ids of at most ten digits with a '#' as fifth and as eighth byte. */
  predicate Tricky(pid: nat)
    requires pid < TWO_64
  {
    BE64(pid)[4] == HASH && BE64(pid)[7] == HASH && pid < 10_000_000_000
  }

  lemma {:induction false} DecimalAtLeast(n: nat, digits: nat)
    requires n >= Power10(digits)
    ensures |Decimal(n)| > digits
    decreases digits
  {
    if digits > 0 { DecimalAtLeast(n / 10, digits - 1); }
  }

  lemma RoundDigits(round: nat)
    ensures round >= 8960 ==> |Decimal(round)| >= 4
    ensures round >= 35 * 0x100_0000 ==> |Decimal(round)| >= 9
  {
    assert Power10(3) == 1000;
    assert Power10(5) == 100_000;
    assert Power10(8) == 100_000_000;
    if round >= 8960 { DecimalAtLeast(round, 3); }
    if round >= 35 * 0x100_0000 { DecimalAtLeast(round, 8); }
  }

  /** The higher the '#' in the id, the longer its decimal text. */
  lemma IdDigits(pid: nat)
    requires pid < TWO_64
    ensures forall i :: 0 <= i < 4 && BE64(pid)[i] == HASH ==> |Decimal(pid)| >= 12
    ensures pid >= 10_000_000_000 ==> |Decimal(pid)| >= 11
  {
    assert Power10(5) == 100_000;
    assert Power10(10) == 10_000_000_000;
    assert Power10(11) == 100_000_000_000;
    var id, high := BE64(pid), pid / TWO_32;
    assert forall i :: 0 <= i < 4 ==> id[i] == BE32(high)[i];
    if i :| 0 <= i < 4 && id[i] == HASH {
      assert high >= 35;
      DecimalAtLeast(pid, 11);
    }
    if pid >= 10_000_000_000 { DecimalAtLeast(pid, 10); }
  }

  /** A false delimiter in the header of any other vertex lies before the end of its payload. */
  lemma SturdyUnlessTricky(size: nat, v: Vertex)
    requires size <= MAX_STREAM_SIZE && 1 <= v.round && Representable(v)
    requires v.payload == NewPayload(v.round, v.pid) && !Tricky(v.pid)
    ensures Sturdy(BE32(size), v)
  {
    var word, round, id := BE32(size), BE32(v.round), BE64(v.pid);
    var h := Header(word, v);
    HeaderBytes(word, v);
    RoundDigits(v.round);
    IdDigits(v.pid);
    assert word[0] == 0 && word[1] <= 1;
    assert round[2] == HASH ==> v.round >= 8960;
    assert round[0] == HASH ==> v.round >= 35 * 0x100_0000;
    PayloadText(v.round, v.pid);
    hide BE32, BE64, Header, NewPayload;
    forall i | 0 <= i < 13 && Fires(h, i) ensures i < |v.payload| {
      assert i >= 2;
      assert i == 3 ==> h[6] == round[2];
      assert i == 4 ==> h[4] == round[0];
      assert 5 <= i < 8 ==> h[i + 3] == id[i - 5];
      assert i >= 8 ==> h[i] == id[i - 8] && h[i + 3] == id[i - 5];
    }
  }

  lemma PayloadText(round: nat, pid: nat)
    ensures |NewPayload(round, pid)| == |Decimal(round)| + 1 + |Decimal(pid)|
    ensures forall i :: 0 <= i < |NewPayload(round, pid)| ==> NewPayload(round, pid)[i] >= 45
  {
    var text := NewPayload(round, pid);
    assert forall b :: b in Decimal(round) ==> IsDigit(b);
    assert forall b :: b in Decimal(pid) ==> IsDigit(b);
    forall i | 0 <= i < |text| ensures text[i] >= 45 {
      assert text[i] in text;
    }
  }

  /** What the protocol puts into packets, created by a peer whose id is not tricky. */
  predicate Plain(v: Vertex) {
    1 <= v.round && Built(v) && v.payload == NewPayload(v.round, v.pid) && !Tricky(v.pid)
  }

  lemma {:induction false} AllPlainSturdy(size: nat, vs: seq<Vertex>)
    requires size <= MAX_STREAM_SIZE && forall i :: 0 <= i < |vs| ==> Plain(vs[i])
    ensures AllBuilt(vs) && AllSturdy(BE32(size), vs)
    decreases |vs|
  {
    if vs != [] {
      hide Sturdy, Built, Tricky, NewPayload;
      assert Plain(vs[0]);
      SturdyUnlessTricky(size, vs[0]);
      AllPlainSturdy(0, vs[1..]);
      assert BE32(0) == Zeros(4);
      assert forall i :: 0 <= i < |vs| ==> Built(vs[i]);
    }
  }

  /** A packet of such vertices arrives intact or not at all. */
  lemma PlainPacket(batch: seq<Vertex>)
    requires batch != [] && (forall i :: 0 <= i < |batch| ==> Plain(batch[i]))
    requires FitChunks(batch) && StreamSize(batch) <= MAX_STREAM_SIZE
    ensures AllBuilt(batch) && Receive(Packet(batch)) == if CleanPacket(batch) then Some(batch) else None
  {
    hide Receive, Stream, Built, EncodedSize;
    AllPlainSturdy(StreamSize(batch), batch);
    PacketStream(batch);
    forall i | 0 <= i < |batch| ensures batch[i].payload != [] {
      assert Plain(batch[i]);
      PayloadText(batch[i].round, batch[i].pid);
    }
    IntactOrNothing(BE32(StreamSize(batch)), batch);
  }

  /** Under the crowd bound a list of such vertices is cut into packets that all fit the receiver's buffer; each arrives as
      its batch when its headers are clean and not at all otherwise, and the batches put together are the list. */
  lemma ExactDelivery(order: seq<Vertex>)
    requires forall i :: 0 <= i < |order| ==> Plain(order[i]) && EncodedSize(order[i]) <= MAX_STREAM_SIZE - PACKET_LIMIT
    ensures Flatten(Batches(order)) == order
    ensures forall k :: 0 <= k < |Batches(order)| ==>
              && Deliverable(Batches(order)[k])
              && |Packet(Batches(order)[k])| < MAX_STREAM_SIZE
              && Receive(Packet(Batches(order)[k])) == if CleanPacket(Batches(order)[k]) then Some(Batches(order)[k]) else None
  {
    hide Batches, Receive, CleanPacket, Packet, EncodedSize, Plain;
    BatchesKeep(order);
    BatchBounds(order, MAX_STREAM_SIZE - PACKET_LIMIT);
    forall k | 0 <= k < |Batches(order)|
      ensures Deliverable(Batches(order)[k]) && |Packet(Batches(order)[k])| < MAX_STREAM_SIZE
      ensures Receive(Packet(Batches(order)[k])) == if CleanPacket(Batches(order)[k]) then Some(Batches(order)[k]) else None
    {
      var batch := Batches(order)[k];
      forall i | 0 <= i < |batch| ensures Plain(batch[i]) && EncodedSize(batch[i]) <= MAX_STREAM_SIZE { BatchMember(order, k, i); }
      PlainPacket(batch);
      PacketStream(batch);
    }
  }

  predicate Deliverable(batch: seq<Vertex>) {
    batch != [] && AllBuilt(batch) && FitChunks(batch) && StreamSize(batch) < TWO_32
  }

  function Packets(batches: seq<seq<Vertex>>): seq<Bytes>
    requires forall k :: 0 <= k < |batches| ==> batches[k] != [] && AllRepresentable(batches[k]) && StreamSize(batches[k]) < TWO_32
  {
    seq(|batches|, k requires 0 <= k < |batches| => Packet(batches[k]))
  }
}
