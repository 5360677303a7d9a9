/** Messages on one connection: a request or a packet of vertices, told apart by the first byte
    (networking.cpp:168-215, 585-624; peer.cpp:430-438). */
module Messages {
  import opened ByteStrings
  import opened Vertices
  import opened Framing
  import opened Batching

  const PREFIX: Byte := 63        // '?'
  const REQUEST_SIZE := 8 + HEX_HASH + 1

  datatype Incoming = Request(key: Key, asker: nat) | Regular(packet: Bytes)

  datatype Read = Read(message: Incoming, rest: Bytes)

  /** The length word of a regular message, as peeked into a cleared buffer. */
  function PeekedLength(stream: Bytes): nat {
    U32((stream + Zeros(4))[..4])
  }

  /** What the server takes off a connection whose pending bytes are `stream`: nothing when the peer has left, while the
      message is incomplete, or when it would not fit the server's buffer. */
  function ReadOne(stream: Bytes): (r: Option<Read>)
    ensures r.Some? ==> |r.value.rest| < |stream|
  {
    if stream == [] then None
    else if stream[0] == PREFIX then
      if |stream| < REQUEST_SIZE then None
      else Some(Read(Request(stream[1..1 + HEX_HASH], U64(stream[1 + HEX_HASH..REQUEST_SIZE])), stream[REQUEST_SIZE..]))
    else
      var length := PeekedLength(stream);
      if length == 0 || length > MAX_STREAM_SIZE || |stream| < length then None else Some(Read(Regular(stream[..length]), stream[length..]))
  }

  function ReadAll(stream: Bytes): Option<seq<Incoming>>
    decreases |stream|
  {
    if stream == [] then Some([]) else
      match ReadOne(stream)
      case None => None
      case Some(read) =>
        match ReadAll(read.rest)
        case None => None
        case Some(more) => Some([read.message] + more)
  }

  /** What peers send: a 64-character key and a 64-bit id, or bytes under their own length. */
  predicate WellFormed(m: Incoming) {
    match m
    case Request(key, asker) => |key| == HEX_HASH && asker < TWO_64
    case Regular(packet) => 4 <= |packet| < TWO_32 && packet[..4] == BE32(|packet|)
  }

  function Wire(m: Incoming): Bytes
    requires WellFormed(m)
  {
    match m
    case Request(key, asker) => [PREFIX] + key + BE64(asker)
    case Regular(packet) => packet
  }

  /** A request is '?', the 64 characters of the key, and the asker's id with its high byte first. */
  lemma RequestLayout(key: Key, asker: nat)
    requires WellFormed(Request(key, asker))
    ensures var b := Wire(Request(key, asker));
            && |b| == 73 && b[0] == 63 && b[1..65] == key
            && BigEndian(b, 65) * 0x1_0000_0000 + BigEndian(b, 69) == asker
  {
    var b := Wire(Request(key, asker));
    assert b[1..65] == key && b[65..69] == BE32(asker / TWO_32) && b[69..73] == BE32(asker % TWO_32);
    hide BE32;
    BigEndianOf(asker / TWO_32, b, 65);
    BigEndianOf(asker % TWO_32, b, 69);
  }

  /** The message fits the server's buffer; its length word is then never taken for the prefix of a request. */
  predicate Storable(m: Incoming) {
    m.Regular? ==> |m.packet| <= MAX_STREAM_SIZE
  }

  /** A message is read back, and nothing after it touched, exactly when it fits the buffer. */
  lemma ReadBack(m: Incoming, rest: Bytes)
    requires WellFormed(m)
    ensures ReadOne(Wire(m) + rest) == Some(Read(m, rest)) <==> Storable(m)
  {
    match m {
      case Request(key, asker) => ReadBackRequest(key, asker, rest);
      case Regular(packet) => ReadBackPacket(packet, rest);
    }
  }

  lemma ReadBackRequest(key: Key, asker: nat, rest: Bytes)
    requires WellFormed(Request(key, asker))
    ensures ReadOne(Wire(Request(key, asker)) + rest) == Some(Read(Request(key, asker), rest))
  {
    var stream, id := Wire(Request(key, asker)) + rest, BE64(asker);
    U64BE64(asker);
    assert stream[1..1 + HEX_HASH] == key && stream[1 + HEX_HASH..REQUEST_SIZE] == id && stream[REQUEST_SIZE..] == rest;
  }

  lemma ReadBackPacket(packet: Bytes, rest: Bytes)
    requires WellFormed(Regular(packet))
    ensures ReadOne(packet + rest) == Some(Read(Regular(packet), rest)) <==> |packet| <= MAX_STREAM_SIZE
  {
    var stream := packet + rest;
    U32BE32(|packet|);
    assert stream[0] == packet[..4][0] == BE32(|packet|)[0];
    assert (stream + Zeros(4))[..4] == packet[..4];
    assert PeekedLength(stream) == |packet|;
    hide U32, U64, PeekedLength;
    assert stream[..|packet|] == packet && stream[|packet|..] == rest;
  }

  predicate AllWellFormed(ms: seq<Incoming>) {
    forall i :: 0 <= i < |ms| ==> WellFormed(ms[i]) && Storable(ms[i])
  }

  function Wires(ms: seq<Incoming>): Bytes
    requires AllWellFormed(ms)
  {
    if ms == [] then [] else Wire(ms[0]) + Wires(ms[1..])
  }

  /** A connection is read as the messages that were written to it, in order. */
  lemma {:induction false} ReadInOrder(ms: seq<Incoming>)
    requires AllWellFormed(ms)
    ensures ReadAll(Wires(ms)) == Some(ms)
  {
    if ms != [] {
      hide ReadOne, Wire;
      ReadBack(ms[0], Wires(ms[1..]));
      ReadInOrder(ms[1..]);
      assert ms == [ms[0]] + ms[1..];
      assert Wires(ms) != [] by { WireNonEmpty(ms[0]); }
    }
  }

  lemma WireNonEmpty(m: Incoming)
    requires WellFormed(m)
    ensures Wire(m) != []
  {
  }

  // ---- What the server makes of them ----

  datatype Delivered = Query(key: Key, asker: nat) | Vertices(vertices: seq<Vertex>)

  function Decode(m: Incoming): Option<Delivered> {
    match m
    case Request(key, asker) => Some(Query(key, asker))
    case Regular(packet) =>
      match Receive(packet)
      case None => None
      case Some(vertices) => Some(Vertices(vertices))
  }

  function DecodeAll(ms: seq<Incoming>): Option<seq<Delivered>> {
    if ms == [] then Some([]) else
      match (Decode(ms[0]), DecodeAll(ms[1..]))
      case (Some(d), Some(more)) => Some([d] + more)
      case _ => None
  }

  /** Everything a connection delivers. */
  function Deliveries(stream: Bytes): Option<seq<Delivered>> {
    match ReadAll(stream)
    case None => None
    case Some(ms) => DecodeAll(ms)
  }

  /** What the protocol sends: requests, and packets that fit the receiver's buffer. */
  predicate Proper(d: Delivered) {
    match d
    case Query(key, asker) => |key| == HEX_HASH && asker < TWO_64
    case Vertices(vs) => Deliverable(vs) && StreamSize(vs) < MAX_STREAM_SIZE && forall i :: 0 <= i < |vs| ==> vs[i].payload != []
  }

  predicate AllProper(ds: seq<Delivered>) {
    forall i :: 0 <= i < |ds| ==> Proper(ds[i])
  }

  function Encoded(d: Delivered): Incoming
    requires Proper(d)
  {
    match d
    case Query(key, asker) => Request(key, asker)
    case Vertices(vs) => Regular(Packet(vs))
  }

  function AllEncoded(ds: seq<Delivered>): seq<Incoming>
    requires AllProper(ds)
  {
    seq(|ds|, i requires 0 <= i < |ds| => Encoded(ds[i]))
  }

  predicate Clean(d: Delivered)
    requires Proper(d)
  {
    d.Vertices? ==> CleanPacket(d.vertices)
  }

  lemma EncodedOk(d: Delivered)
    requires Proper(d)
    ensures WellFormed(Encoded(d)) && Storable(Encoded(d))
    ensures Decode(Encoded(d)) == Some(d) <==> Clean(d)
  {
    hide Receive, Framed, BE32, Built, EncodedSize;
    if d.Vertices? {
      PacketStream(d.vertices);
      PacketRoundTrip(d.vertices);
      var word := BE32(StreamSize(d.vertices));
      assert Packet(d.vertices)[..4] == word by { StreamWord(word, d.vertices); }
      StreamLength(word, d.vertices);
    }
  }

  lemma StreamWord(word: Bytes, vs: seq<Vertex>)
    requires |word| == 4 && vs != [] && AllRepresentable(vs)
    ensures |Stream(word, vs)| >= 4 && Stream(word, vs)[..4] == word
  {
  }

  lemma {:induction false} DecodeEncoded(ds: seq<Delivered>)
    requires AllProper(ds)
    ensures DecodeAll(AllEncoded(ds)) == Some(ds) <==> forall i :: 0 <= i < |ds| ==> Clean(ds[i])
  {
    hide Proper, Encoded, Decode, Clean;
    if ds != [] {
      EncodedOk(ds[0]);
      DecodeEncoded(ds[1..]);
      assert AllEncoded(ds)[1..] == AllEncoded(ds[1..]);
      assert ds == [ds[0]] + ds[1..];
      var rest := DecodeAll(AllEncoded(ds[1..]));
      assert rest.Some? && DecodeAll(AllEncoded(ds)).Some? ==> DecodeAll(AllEncoded(ds)).value[1..] == rest.value;
    }
  }

  /** Any mix of requests and packets written to a connection is delivered as sent, in order, exactly when the headers
      of all packets are clean. */
  lemma ConnectionDelivers(ds: seq<Delivered>)
    requires AllProper(ds)
    ensures AllWellFormed(AllEncoded(ds))
    ensures Deliveries(Wires(AllEncoded(ds))) == Some(ds) <==> forall i :: 0 <= i < |ds| ==> Clean(ds[i])
  {
    hide Proper, Encoded, Decode, Clean, WellFormed, Storable;
    forall i | 0 <= i < |ds| ensures WellFormed(Encoded(ds[i])) && Storable(Encoded(ds[i])) { EncodedOk(ds[i]); }
    ReadInOrder(AllEncoded(ds));
    DecodeEncoded(ds);
  }

  // ---- The connection object ----

  datatype Kind = ReqMsg | RegMsg | FinMsg

  /** The receiving end of a socket. */
  class Connection {
    var incoming: Bytes

    constructor (incoming: Bytes)
      ensures this.incoming == incoming
    {
      this.incoming := incoming;
    }

    /** examine_msg: peeks without taking anything. */
    method ExamineMsg() returns (kind: Kind, bytes: nat)
      ensures kind == FinMsg <==> incoming == []
      ensures kind == ReqMsg <==> incoming != [] && incoming[0] == PREFIX
      ensures kind == RegMsg ==> bytes == PeekedLength(incoming)
    {
      bytes := 0;
      if |incoming| == 0 { return FinMsg, bytes; }
      var buffer := incoming + Zeros(4);
      if buffer[0] == PREFIX {
        kind := ReqMsg;
      } else {
        kind, bytes := RegMsg, U32(buffer[..4]);
      }
    }

    /** process_request: takes the 73 bytes of a request. */
    method ProcessRequest() returns (hash: Key, peerId: nat)
      requires |incoming| >= REQUEST_SIZE && incoming[0] == PREFIX
      modifies this
      ensures Some(Read(Request(hash, peerId), incoming)) == ReadOne(old(incoming))
    {
      var buffer := incoming[..REQUEST_SIZE];
      incoming := incoming[REQUEST_SIZE..];
      hash := buffer[1..1 + HEX_HASH];
      peerId := U64(buffer[1 + HEX_HASH..]);
      assert buffer[1..1 + HEX_HASH] == old(incoming)[1..1 + HEX_HASH];
      assert buffer[1 + HEX_HASH..] == old(incoming)[1 + HEX_HASH..REQUEST_SIZE];
    }

    /** One event of the server loop: the message is taken and decoded, or left alone when there is none to take. */
    method Next() returns (taken: bool, message: Option<Delivered>)
      modifies this
      ensures taken <==> ReadOne(old(incoming)).Some?
      ensures !taken ==> incoming == old(incoming) && message == None
      ensures taken ==> incoming == ReadOne(old(incoming)).value.rest && message == Decode(ReadOne(old(incoming)).value.message)
    {
      hide Receive, U64, U32;
      var kind, bytes := ExamineMsg();
      taken, message := false, None;
      if kind == ReqMsg && |incoming| >= REQUEST_SIZE {
        var hash, peerId := ProcessRequest();
        taken, message := true, Some(Query(hash, peerId));
      } else if kind == RegMsg && 0 < bytes <= |incoming| && bytes <= MAX_STREAM_SIZE {
        var packet := incoming[..bytes];
        var buffer := new Byte[MAX_STREAM_SIZE](i requires 0 <= i < MAX_STREAM_SIZE => if i < bytes then packet[i] else 0);
        assert buffer[..bytes] == packet;
        incoming := incoming[bytes..];
        var ok, vertices := RecvN(buffer, bytes);
        taken, message := true, if ok then Some(Vertices(vertices)) else None;
      }
    }
  }
}
