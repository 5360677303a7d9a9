/** What packets with an unclean header do: one that is lost, and the ids for which the receiver gets another record
    under the creator's key. */
module Forgery {
  import opened ByteStrings
  import opened Vertices
  import opened Framing
  import opened Batching

  /** The first vertex of a peer, as it is broadcast. */
  function FirstVertex(pid: nat): Vertex {
    Vertex(1, pid, NewPayload(1, pid), [])
  }

  lemma FirstVertexBuilt(pid: nat)
    requires pid < TWO_64
    ensures Built(FirstVertex(pid)) && Deliverable([FirstVertex(pid)])
    ensures StreamSize([FirstVertex(pid)]) == EncodedSize(FirstVertex(pid)) == 30 + |Decimal(pid)| <= 59
    ensures |FirstVertex(pid).payload| == 2 + |Decimal(pid)|
  {
    var v := FirstVertex(pid);
    NewPayloadInert(1, pid);
    PayloadText(1, pid);
    assert Decimal(1) == [49];
    assert [v][..0] == [] && [v][0] == v;
  }

  lemma LostHeader(size: nat)
    requires size <= MAX_STREAM_SIZE
    ensures Representable(FirstVertex(0x1800_2300_0023_0000)) && !CleanHeader(BE32(size), FirstVertex(0x1800_2300_0023_0000))
  {
    var pid := 0x1800_2300_0023_0000;
    assert BE64(pid) == [0x18, 0, 0x23, 0, 0, 0x23, 0, 0];
    assert BE64(pid)[2] == HASH && BE64(pid)[2 + 3] == HASH;
    FirstVertexBuilt(pid);
    hide BE64, BE32, NewPayload;
    CleanHeaderExactly(size, FirstVertex(pid));
  }

  lemma NotTricky(pid: nat)
    requires 10_000_000_000 <= pid < TWO_64
    ensures !Tricky(pid)
  {
  }

  /** A clock reading of 20 October 2024 as id: its first vertex can be sent and is not received. */
  lemma LostBroadcast()
    ensures var v := FirstVertex(0x1800_2300_0023_0000);
            Deliverable([v]) && !CleanPacket([v]) && Receive(Packet([v])) == None
  {
    hide BE64, BE32, NewPayload, Receive, Built, Packet, CleanHeader, EncodedSize, StreamSize, Stream, Tricky;
    var v := FirstVertex(0x1800_2300_0023_0000);
    FirstVertexBuilt(0x1800_2300_0023_0000);
    LostHeader(StreamSize([v]));
    assert !Tricky(v.pid) by { NotTricky(v.pid); }
    PlainPacket([v]);
  }

  // ---- Forged records ----

  lemma TrickyDigits(pid: nat)
    requires pid < TWO_64 && Tricky(pid)
    ensures 9 <= |Decimal(pid)| <= 10
    ensures BE64(pid)[0] == 0 && BE64(pid)[1] == 0 && BE64(pid)[2] == 0 && BE64(pid)[3] < 3
  {
    assert Power10(5) == 100_000;
    assert Power10(8) == 100_000_000;
    assert Power10(10) == 10_000_000_000;
    assert pid >= 35 * 0x100_0000;
    DecimalAtLeast(pid, 8);
    DecimalLength(pid, 10, Power10(10));
  }

  /** Only the last pair of header bytes looks like a delimiter. */
  lemma TrickyHeader(pid: nat, word: Bytes)
    requires pid < TWO_64 && Tricky(pid)
    requires |word| == 4 && word[0] == word[1] == word[2] == 0 && word[3] != HASH
    ensures Representable(FirstVertex(pid))
    ensures forall i :: 0 <= i < 13 ==> (Fires(Header(word, FirstVertex(pid)), i) <==> i == 12)
  {
    var id := BE64(pid);
    FirstVertexBuilt(pid);
    TrickyDigits(pid);
    var h := Header(word, FirstVertex(pid));
    HeaderBytes(word, FirstVertex(pid));
    assert BE32(1) == [0, 0, 0, 1];
    hide BE32, BE64, Header, Decimal;
    assert h[0] == word[0] && h[1] == word[1] && h[2] == word[2] && h[3] == word[3];
    assert h[0 + 4] == 0 && h[1 + 4] == 0 && h[2 + 4] == 0 && h[3 + 4] == 1;
    assert h[0 + 8] == 0 && h[1 + 8] == 0 && h[2 + 8] == 0 && h[3 + 8] != HASH && h[4 + 8] == HASH && h[7 + 8] == HASH;
  }

  /** The packet falls apart after its header. */
  lemma TrickySplit(pid: nat, word: Bytes)
    requires pid < TWO_64 && Tricky(pid)
    requires |word| == 4 && word[0] == word[1] == word[2] == 0 && word[3] != HASH
    ensures Representable(FirstVertex(pid)) && |Framed(word, FirstVertex(pid))| > 16
    ensures Split(Framed(word, FirstVertex(pid))) == Cut([Framed(word, FirstVertex(pid))[..16], Framed(word, FirstVertex(pid))[16..]], true)
  {
    hide Framed, Header, Fires, Split, FirstFire, Built, NewPayload, Tricky;
    var v := FirstVertex(pid);
    FirstVertexBuilt(pid);
    TrickyHeader(pid, word);
    var e := Framed(word, v);
    var j := NextCut(word, v, [], 0);
    var k := NextCut(word, v, [], 16);
    FirstSegment(word, v, []);
    assert e[0..] == e && e + [] == e && e[16..] + [] == e[16..];
    assert Fires(Header(word, v), 12);
    assert !CleanHeader(word, v);
    assert j == 12;
    CutAt(e, j);
    CutAt(e[16..], k);
  }

  lemma {:induction false} EmptyRefs(b: Bytes, count: nat)
    ensures ParseRefs(b, count, 0).Some?
  {
    if count > 0 { EmptyRefs(b[0..], count - 1); }
  }

  /** The header on its own reads as the same round and creator without payload and references. */
  lemma ForgedHead(pid: nat, word: Bytes)
    requires pid < TWO_64 && |word| == 4 && Representable(FirstVertex(pid)) && |Framed(word, FirstVertex(pid))| > 16
    ensures ParseSegment(Framed(word, FirstVertex(pid))[..16]) == Some(Vertex(1, pid, [], []))
  {
    var v := FirstVertex(pid);
    var head := Framed(word, v)[..16];
    var round, id := BE32(1), BE64(pid);
    U32BE32(1);
    U64BE64(pid);
    U32BE32(0);
    assert ToU32(1) == 1;
    FramedFields(word, v, []);
    assert Framed(word, v) + [] == Framed(word, v);
    var chunk := head + Zeros(MAX_STREAM_SIZE - 16);
    assert |round| == 4 && |id| == 8;
    hide BE32, BE64, U32, U64, Framed;
    assert head == word + round + id;
    assert chunk[4..8] == round && chunk[8..16] == id;
    assert BE32(0) == Zeros(4);
    assert chunk[16..20] == Zeros(4) && chunk[20..][..4] == Zeros(4);
    assert chunk[20..20] == [];
    assert ParseRefsPart(chunk[20..]) == Some([]);
  }

  function Tail(text: Bytes): Bytes
    requires |text| < 256
  {
    [0, 0, 0, |text|] + text + [0, 0, 0, 0] + [HASH, HASH, HASH, HASH]
  }

  lemma ElevenCharacters(text: Bytes)
    requires |text| == 11 && text[0] == 49
    ensures ParseSegment(Tail(text)).Some? && ParseSegment(Tail(text)).value.round >= 0x100_0000
  {
    var chunk := Tail(text) + Zeros(MAX_STREAM_SIZE - 23);
    assert chunk[4] == 49;
    assert chunk[16..20] == [0, 0, 0, 35];
    assert chunk[20 + 35..][..4] == [0, 0, 0, 0];
    assert U32([0, 0, 0, 35]) == 35 && U32([0, 0, 0, 0]) == 0;
    assert FromU32(U32(chunk[4..8])) >= 0x100_0000;
    hide U32, U64, FromU32, Tail;
    assert ParseRefsPart(chunk[20 + 35..]) == Some([]);
  }

  lemma TwelveCharacters(text: Bytes)
    requires |text| == 12 && text[0] == 49
    ensures ParseSegment(Tail(text)).Some? && ParseSegment(Tail(text)).value.round >= 0x100_0000
  {
    var chunk := Tail(text) + Zeros(MAX_STREAM_SIZE - 24);
    assert chunk[4] == 49;
    assert chunk[16..20] == [0, 0, 0, 0];
    var rest := chunk[20..];
    assert rest[4..8] == [0, 0, 0, 0];
    assert U32([0, 0, 0, 0]) == 0;
    assert FromU32(U32(chunk[4..8])) >= 0x100_0000;
    EmptyRefs(rest[8..], U32(rest[..4]));
    hide U32, U64, FromU32, Tail, ParseRefs;
    assert ParseRefsPart(rest).Some?;
    assert chunk[20 + 0..] == rest;
  }

  /** The rest reads as a vertex of a far later round. */
  lemma ForgedTail(pid: nat, word: Bytes)
    requires pid < TWO_64 && |word| == 4 && Representable(FirstVertex(pid)) && 9 <= |Decimal(pid)| <= 10
    requires |Framed(word, FirstVertex(pid))| > 16
    ensures ParseSegment(Framed(word, FirstVertex(pid))[16..]).Some?
    ensures ParseSegment(Framed(word, FirstVertex(pid))[16..]).value.round >= 0x100_0000
  {
    var text := FirstVertex(pid).payload;
    PayloadText(1, pid);
    assert Decimal(1) == [49];
    assert text[0] == 49;
    var tail := TailBytes(pid, word);
    hide Framed, NewPayload, Decimal, ParseSegment, Tail;
    if |text| == 11 { ElevenCharacters(text); } else { TwelveCharacters(text); }
  }

  lemma DropHeader(word: Bytes, round: Bytes, id: Bytes, size: Bytes, text: Bytes)
    requires |word| == |round| == 4 && |id| == 8 && |text| < 256 && size == [0, 0, 0, |text|]
    ensures (word + (round + (id + (size + (text + ([0, 0, 0, 0] + (DELIMITER + [])))))))[16..] == Tail(text)
  {
  }

  lemma TailBytes(pid: nat, word: Bytes) returns (tail: Bytes)
    requires pid < TWO_64 && |word| == 4 && Representable(FirstVertex(pid)) && 9 <= |Decimal(pid)| <= 10
    ensures var text := FirstVertex(pid).payload;
            |Framed(word, FirstVertex(pid))| >= 16 && tail == Framed(word, FirstVertex(pid))[16..]
            && |text| < 256 && tail == Tail(text)
  {
    var v := FirstVertex(pid);
    PayloadText(1, pid);
    assert Decimal(1) == [49];
    assert BE32(|v.payload|) == [0, 0, 0, |v.payload|] && BE32(0) == [0, 0, 0, 0] && ToU32(1) == 1;
    hide Framed, NewPayload, Decimal, BE64, BE32, Tail;
    FramedFields(word, v, []);
    assert Framed(word, v) + [] == Framed(word, v);
    FramedSize(word, v);
    DropHeader(word, BE32(1), BE64(pid), BE32(|v.payload|), v.payload);
    tail := Framed(word, v)[16..];
  }

  /** Two records, the first of them empty under the given round and id, the second of a far later round. */
  predicate Forged(received: Option<seq<Vertex>>, pid: nat) {
    received.Some? && |received.value| == 2 && received.value[0] == Vertex(1, pid, [], []) && received.value[1].round >= 0x100_0000
  }

  lemma ForgedParts(pid: nat, word: Bytes) returns (segments: seq<Bytes>, other: Vertex)
    requires pid < TWO_64 && Tricky(pid)
    requires |word| == 4 && word[0] == word[1] == word[2] == 0 && word[3] != HASH
    ensures Representable(FirstVertex(pid)) && Split(Framed(word, FirstVertex(pid))) == Cut(segments, true)
    ensures ParsesTo(segments, [Vertex(1, pid, [], []), other]) && other.round >= 0x100_0000
  {
    TrickyDigits(pid);
    TrickySplit(pid, word);
    hide Framed, Split, ParseSegment, NewPayload, Decimal, Tricky;
    var e := Framed(word, FirstVertex(pid));
    ForgedHead(pid, word);
    ForgedTail(pid, word);
    segments, other := [e[..16], e[16..]], ParseSegment(e[16..]).value;
  }

  lemma ReceiveParts(b: Bytes, segments: seq<Bytes>, vs: seq<Vertex>)
    requires Split(b) == Cut(segments, true) && ParsesTo(segments, vs)
    ensures Receive(b) == Some(vs)
  {
    hide Split, ParseSegments, ParsesTo;
    ParseSegmentsExactly(segments, vs);
  }

  /** What the receiver of such a peer's first broadcast gets. */
  lemma ForgedRecord(pid: nat)
    requires pid < TWO_64 && Tricky(pid)
    ensures Deliverable([FirstVertex(pid)]) && Forged(Receive(Packet([FirstVertex(pid)])), pid)
  {
    hide Framed, Packet, Split, ParsesTo, NewPayload, Tricky, Receive, Deliverable;
    var word := FirstWord(pid);
    var segments, other := ForgedParts(pid, word);
    ReceiveParts(Framed(word, FirstVertex(pid)), segments, [Vertex(1, pid, [], []), other]);
  }

  lemma FirstWord(pid: nat) returns (word: Bytes)
    requires pid < TWO_64 && Tricky(pid)
    ensures |word| == 4 && word[0] == word[1] == word[2] == 0 && word[3] != HASH
    ensures Deliverable([FirstVertex(pid)]) && Packet([FirstVertex(pid)]) == Framed(word, FirstVertex(pid))
  {
    var v := FirstVertex(pid);
    FirstVertexBuilt(pid);
    TrickyDigits(pid);
    word := BE32(StreamSize([v]));
    hide Framed, Packet, Built, NewPayload, Decimal, Tricky, EncodedSize;
    PacketStream([v]);
    assert [v][1..] == [];
    assert Stream(word, [v]) == Framed(word, v) + [];
  }

  /** Exactly the other ids have a first broadcast that arrives intact or not at all. */
  lemma IntactUnlessTricky(pid: nat)
    requires pid < TWO_64
    ensures Deliverable([FirstVertex(pid)])
    ensures Receive(Packet([FirstVertex(pid)])) in {None, Some([FirstVertex(pid)])} <==> !Tricky(pid)
  {
    FirstVertexBuilt(pid);
    var v := FirstVertex(pid);
    hide Receive, Packet, Built, NewPayload, Tricky, EncodedSize, StreamSize;
    if Tricky(pid) {
      ForgedRecord(pid);
    } else {
      PlainPacket([v]);
    }
  }
}
