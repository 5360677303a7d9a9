/** Splitting a received byte stream into vertices (networking.cpp, c_recvn). */
module Framing {
  import opened ByteStrings
  import opened Vertices

  /** The test at networking.cpp:555: it looks at two bytes of the four-byte delimiter. */
  predicate Fires(b: Bytes, i: nat) {
    i + 3 < |b| && b[i] == HASH && b[i + 3] == HASH
  }

  /** The first position from `i` on where the test fires, or the length when there is none. */
  function FirstFire(b: Bytes, i: nat): (j: nat)
    requires i <= |b|
    ensures i <= j <= |b|
    ensures j < |b| ==> Fires(b, j)
    ensures forall k :: i <= k < j ==> !Fires(b, k)
    decreases |b| - i
  {
    if i == |b| || Fires(b, i) then i else FirstFire(b, i + 1)
  }

  /** The segments cut out of a stream, and whether the last one ends with it. */
  datatype Cut = Cut(segments: seq<Bytes>, complete: bool)

  function Split(b: Bytes): Cut
    decreases |b|
  {
    var j := FirstFire(b, 0);
    if j == |b| then Cut([], false)
    else if j + 4 == |b| then Cut([b], true)
    else
      var rest := Split(b[j + 4..]);
      Cut([b[..j + 4]] + rest.segments, rest.complete)
  }

  /** A piece ends at its first pair of '#' three apart. */
  predicate Piece(b: Bytes) {
    |b| >= 4 && b[|b| - 4] == 35 && b[|b| - 1] == 35 && forall k :: 0 <= k < |b| - 4 ==> !(b[k] == 35 && b[k + 3] == 35)
  }

  lemma FirstPiece(b: Bytes, j: nat)
    requires j == FirstFire(b, 0) && j + 4 <= |b|
    ensures Piece(b[..j + 4])
  {
    var piece := b[..j + 4];
    forall k | 0 <= k < |piece| - 4 ensures !(piece[k] == 35 && piece[k + 3] == 35) { assert !Fires(b, k); }
  }

  /** No such pair. */
  predicate Plainly(b: Bytes) {
    forall k :: 0 <= k < |b| - 3 ==> !(b[k] == 35 && b[k + 3] == 35)
  }

  lemma NoPiece(b: Bytes)
    requires FirstFire(b, 0) == |b|
    ensures Plainly(b) && Split(b) == Cut([], false)
  {
    forall k | 0 <= k < |b| - 3 ensures !(b[k] == 35 && b[k + 3] == 35) { assert !Fires(b, k); }
  }

  lemma PieceFirst(piece: Bytes, tail: Bytes, more: seq<Bytes>, rest: Bytes)
    requires tail == Concat(more) + rest
    ensures piece + tail == Concat([piece] + more) + rest
  {
    assert ([piece] + more)[1..] == more;
    assert piece + (Concat(more) + rest) == piece + Concat(more) + rest;
  }

  /** Whatever the bytes, they are cut into pieces, in order and with nothing lost but a last part that is empty or contains no
      such pair; the split is complete exactly when that part is empty and there is a piece. */
  lemma {:induction false} SplitPieces(b: Bytes) returns (rest: Bytes)
    ensures b == Concat(Split(b).segments) + rest
    ensures forall i :: 0 <= i < |Split(b).segments| ==> Piece(Split(b).segments[i])
    ensures Plainly(rest)
    ensures Split(b).complete <==> rest == [] && Split(b).segments != []
    decreases |b|
  {
    var j := FirstFire(b, 0);
    if j == |b| {
      NoPiece(b);
      rest := b;
    } else {
      FirstPiece(b, j);
      CutAt(b, j);
      hide FirstFire, Piece, Plainly, Split, Concat;
      var piece := b[..j + 4];
      if j + 4 == |b| {
        rest := [];
        assert piece == b;
        OnePiece(b);
      } else {
        var tail := b[j + 4..];
        rest := SplitPieces(tail);
        PieceFirst(piece, tail, Split(tail).segments, rest);
        assert b == piece + tail;
      }
    }
  }

  lemma OnePiece(b: Bytes)
    ensures b == Concat([b]) + [] && Plainly([])
  {
    assert [b][1..] == [];
  }

  // ---- Where the test can fire inside one encoding ----

  /** No '#' byte at all. */
  predicate Inert(b: Bytes) {
    HASH !in b
  }

  /** What the protocol puts in its vertices: payload text of digits and '-', 64-character hexadecimal references. */
  predicate Built(v: Vertex) {
    && Representable(v)
    && Inert(v.payload) && |v.payload| < 35
    && |v.refs| < 0x100_0000
    && forall i :: 0 <= i < |v.refs| ==> Inert(v.refs[i]) && |v.refs[i]| == 64
  }

  /** The 16 bytes before the payload: length word, round, peer id. */
  function Header(word: Bytes, v: Vertex): (h: Bytes)
    requires |word| == 4 && Representable(v)
    ensures |h| == 16
  {
    word + BE32(ToU32(v.round)) + BE64(v.pid)
  }

  /** No pair of '#' three apart inside the header. */
  predicate CleanHeader(word: Bytes, v: Vertex)
    requires |word| == 4 && Representable(v)
  {
    forall i :: 0 <= i < 13 ==> !Fires(Header(word, v), i)
  }

  lemma InertConcat(a: Bytes, b: Bytes)
    requires (forall i :: 0 <= i < |a| ==> a[i] != HASH) && Inert(b)
    ensures Inert(a + b)
  {
  }

  lemma {:induction false} ConcatInert(parts: seq<Bytes>)
    requires forall i :: 0 <= i < |parts| ==> Inert(parts[i])
    ensures Inert(Concat(parts))
  {
    if parts != [] {
      ConcatInert(parts[1..]);
      assert Inert(parts[0]);
    }
  }

  /** A header, an inert payload block, a count with a clear high byte, and an inert reference block
      that is absent only when the count is zero. */
  lemma FiresOnlyInHeader(header: Bytes, block: Bytes, count: Bytes, refs: Bytes, i: nat)
    requires |header| == 16 && |count| == 4
    requires Inert(block) && |block| >= 4 && Inert(refs)
    requires count[0] != HASH && (refs == [] ==> Inert(count)) && (refs != [] ==> |refs| >= 4)
    requires i < |header + block + count + refs|
    ensures Fires(header + block + count + refs + DELIMITER, i) <==> Fires(header, i)
  {
    var b := header + block + count + refs + DELIMITER;
    var m := 16 + |block|;
    assert i < 13 ==> b[i] == header[i] && b[i + 3] == header[i + 3];
    assert 13 <= i < 16 ==> b[i + 3] == block[i - 13];
    assert 16 <= i < m ==> b[i] == block[i - 16];
    assert m <= i < m + 4 ==> b[i] == count[i - m] && (refs != [] && i > m ==> b[i + 3] == refs[i - m - 1]);
    assert m + 4 <= i ==> b[i] == refs[i - m - 4];
  }

  /** The reference block of a protocol-built vertex is inert after its count. */
  lemma RefsBlock(v: Vertex) returns (count: Bytes, refs: Bytes)
    requires Built(v)
    ensures RefsPart(v.refs) == count + refs && |count| == 4
    ensures Inert(refs) && count[0] != HASH
    ensures (refs == [] ==> Inert(count)) && (refs != [] ==> |refs| >= 4)
  {
    count, refs := BE32(|v.refs|), [];
    if v.refs != [] {
      ConcatInert(v.refs);
      var width := BE32(64);
      assert width == [0, 0, 0, 64];
      refs := width + Concat(v.refs);
    }
  }

  lemma FramedBlocks(word: Bytes, v: Vertex, count: Bytes, refs: Bytes)
    requires |word| == 4 && Representable(v) && RefsPart(v.refs) == count + refs
    ensures Framed(word, v) == Header(word, v) + (BE32(|v.payload|) + v.payload) + count + refs + DELIMITER
  {
    var round, pid, size := BE32(ToU32(v.round)), BE64(v.pid), BE32(|v.payload|);
    Associate(word, round, pid, size, v.payload, RefsPart(v.refs), DELIMITER, []);
    GroupBlocks(word + round + pid, size, v.payload, count, refs, DELIMITER);
  }

  lemma GroupBlocks(header: Bytes, size: Bytes, payload: Bytes, count: Bytes, refs: Bytes, end: Bytes)
    ensures header + size + payload + (count + refs) + end == header + (size + payload) + count + refs + end
  {
  }

  /** Inside a protocol-built encoding, before its delimiter, the test fires exactly where it fires in the header. */
  lemma FiresBeforeDelimiter(word: Bytes, v: Vertex, i: nat)
    requires |word| == 4 && Built(v)
    requires i < EncodedSize(v) - 4
    ensures |Framed(word, v)| == EncodedSize(v)
    ensures Fires(Framed(word, v), i) <==> Fires(Header(word, v), i)
  {
    var count, refs := RefsBlock(v);
    var size := BE32(|v.payload|);
    assert size == [0, 0, 0, |v.payload|];
    hide Framed, Header, RefsPart, Body, Fires, BE32, EncodedSize, Inert;
    InertConcat(size, v.payload);
    FramedSize(word, v);
    FramedBlocks(word, v, count, refs);
    FiresOnlyInHeader(Header(word, v), size + v.payload, count, refs, i);
  }

  /** Bytes after position i + 3 do not matter to the test at i. */
  lemma FiresPrefix(b: Bytes, tail: Bytes, i: nat)
    requires i + 3 < |b|
    ensures Fires(b + tail, i) <==> Fires(b, i)
  {
  }

  /** The first segment cut from a stream that starts with an encoding is that encoding exactly when its header is clean. */
  lemma FirstSegment(word: Bytes, v: Vertex, rest: Bytes)
    requires |word| == 4 && Built(v)
    ensures |Framed(word, v)| == EncodedSize(v)
    ensures FirstFire(Framed(word, v) + rest, 0) <= EncodedSize(v) - 4
    ensures FirstFire(Framed(word, v) + rest, 0) == EncodedSize(v) - 4 <==> CleanHeader(word, v)
    ensures FirstFire(Framed(word, v) + rest, 0) < 13 <==> !CleanHeader(word, v)
  {
    hide Header, Body;
    var e, h := Framed(word, v), Header(word, v);
    var b, d := e + rest, EncodedSize(v) - 4;
    FramedSize(word, v);
    assert e[d..] == DELIMITER by { assert e == word + Body(v) + DELIMITER; }
    assert b[d] == e[d] == e[d..][0] && b[d + 3] == e[d + 3] == e[d..][3];
    assert Fires(b, d);
    var j := FirstFire(b, 0);
    if CleanHeader(word, v) && j < d {
      FiresPrefix(e, rest, j);
      FiresBeforeDelimiter(word, v, j);
    }
    if !CleanHeader(word, v) {
      var i :| 0 <= i < 13 && Fires(h, i);
      FiresBeforeDelimiter(word, v, i);
      FiresPrefix(e, rest, i);
    }
  }

  // ---- Whole packets ----

  predicate AllRepresentable(vs: seq<Vertex>) {
    forall i :: 0 <= i < |vs| ==> Representable(vs[i])
  }

  predicate AllBuilt(vs: seq<Vertex>)
    ensures AllBuilt(vs) ==> AllRepresentable(vs)
  {
    forall i :: 0 <= i < |vs| ==> Built(vs[i])
  }

  /** Encodings one after the other; the first carries `word` as its length word. */
  function Stream(word: Bytes, vs: seq<Vertex>): Bytes
    requires |word| == 4 && AllRepresentable(vs)
    decreases |vs|
  {
    if vs == [] then [] else Framed(word, vs[0]) + Stream(Zeros(4), vs[1..])
  }

  function Encodings(word: Bytes, vs: seq<Vertex>): seq<Bytes>
    requires |word| == 4 && AllRepresentable(vs)
    decreases |vs|
  {
    if vs == [] then [] else [Framed(word, vs[0])] + Encodings(Zeros(4), vs[1..])
  }

  predicate CleanStream(word: Bytes, vs: seq<Vertex>)
    requires |word| == 4 && AllRepresentable(vs)
    decreases |vs|
  {
    vs == [] || (CleanHeader(word, vs[0]) && CleanStream(Zeros(4), vs[1..]))
  }

  /** A packet of protocol-built vertices is cut back into their encodings, in order, exactly when every header is clean. */
  lemma {:induction false} SplitStream(word: Bytes, vs: seq<Vertex>)
    requires |word| == 4 && vs != [] && AllBuilt(vs)
    decreases |vs|
    ensures Split(Stream(word, vs)) == Cut(Encodings(word, vs), true) <==> CleanStream(word, vs)
  {
    var e, rest, more := Framed(word, vs[0]), Stream(Zeros(4), vs[1..]), Encodings(Zeros(4), vs[1..]);
    FirstSegment(word, vs[0], rest);
    if vs[1..] == [] {
      FirstCut(e, rest, more);
    } else {
      FirstSegment(Zeros(4), vs[1], Stream(Zeros(4), vs[1..][1..]));
      SplitStream(Zeros(4), vs[1..]);
      FirstCut(e, rest, more);
    }
  }

  /** The first cut falls at the end of `e` or before it; the rest is then split on its own. */
  lemma FirstCut(e: Bytes, rest: Bytes, more: seq<Bytes>)
    requires |e| >= 4 && FirstFire(e + rest, 0) <= |e| - 4 && (rest == [] ==> more == [])
    ensures rest == [] ==> (Split(e + rest) == Cut([e] + more, true) <==> FirstFire(e + rest, 0) == |e| - 4)
    ensures rest != [] ==> (Split(e + rest) == Cut([e] + more, true)
                            <==> FirstFire(e + rest, 0) == |e| - 4 && Split(rest) == Cut(more, true))
  {
    var b, j := e + rest, FirstFire(e + rest, 0);
    if j == |e| - 4 {
      Peel(e, rest);
      if rest == [] {
        assert b == e && [e] + more == [e];
      } else {
        var cut := Split(rest);
        assert Split(b) == Cut([e] + cut.segments, cut.complete);
        assert ([e] + cut.segments)[1..] == cut.segments && ([e] + more)[1..] == more;
      }
    } else {
      assert Split(b).segments[0] == b[..j + 4];
      assert |b[..j + 4]| != |([e] + more)[0]|;
    }
  }

  // ---- Parsing the segments ----

  predicate FitChunks(vs: seq<Vertex>) {
    forall i :: 0 <= i < |vs| ==> EncodedSize(vs[i]) <= MAX_STREAM_SIZE
  }

  /** A segment is parsed from the front of a cleared 65536-byte chunk. */
  function ParseSegment(segment: Bytes): Option<Vertex> {
    if |segment| > MAX_STREAM_SIZE then None else Parse(segment + Zeros(MAX_STREAM_SIZE - |segment|))
  }

  function ParseSegments(segments: seq<Bytes>): Option<seq<Vertex>> {
    if exists i :: 0 <= i < |segments| && ParseSegment(segments[i]) == None then None
    else Some(seq(|segments|, i requires 0 <= i < |segments| => ParseSegment(segments[i]).value))
  }

  lemma ParseFramed(word: Bytes, v: Vertex)
    requires |word| == 4 && Built(v) && EncodedSize(v) <= MAX_STREAM_SIZE
    ensures ParseSegment(Framed(word, v)) == Some(v)
  {
    hide Parse, Framed, EncodedSize;
    FramedSize(word, v);
    RoundTrip(word, v, Zeros(MAX_STREAM_SIZE - EncodedSize(v)));
  }

  lemma {:induction false} EncodingAt(word: Bytes, vs: seq<Vertex>, i: nat)
    requires |word| == 4 && AllRepresentable(vs) && i < |vs|
    ensures |Encodings(word, vs)| == |vs|
    ensures Encodings(word, vs)[i] == Framed(if i == 0 then word else Zeros(4), vs[i])
    decreases |vs|
  {
    if |vs| > 1 { EncodingAt(Zeros(4), vs[1..], if i == 0 then 0 else i - 1); }
  }

  lemma ParseEncodings(word: Bytes, vs: seq<Vertex>)
    requires |word| == 4 && vs != [] && AllBuilt(vs) && FitChunks(vs)
    ensures ParseSegments(Encodings(word, vs)) == Some(vs)
  {
    hide ParseSegment, Framed, Encodings, Built;
    var all := Encodings(word, vs);
    EncodingAt(word, vs, 0);
    forall i | 0 <= i < |vs| ensures ParseSegment(all[i]) == Some(vs[i]) {
      EncodingAt(word, vs, i);
      ParseFramed(if i == 0 then word else Zeros(4), vs[i]);
    }
    assert ParseSegments(all).value == vs;
  }

  /** What one call of c_recvn delivers from one received buffer: the vertices, provided the last delimiter
      closes the buffer and no field leaves its chunk. */
  function Receive(b: Bytes): Option<seq<Vertex>> {
    var cut := Split(b);
    if cut.complete then ParseSegments(cut.segments) else None
  }

  predicate ParsesTo(segments: seq<Bytes>, vs: seq<Vertex>) {
    |segments| == |vs| && forall i :: 0 <= i < |vs| ==> ParseSegment(segments[i]) == Some(vs[i])
  }

  lemma ParseSegmentsExactly(segments: seq<Bytes>, vs: seq<Vertex>)
    ensures ParseSegments(segments) == Some(vs) <==> ParsesTo(segments, vs)
  {
    hide ParseSegment;
    if ParsesTo(segments, vs) { assert ParseSegments(segments).value == vs; }
  }

  lemma ParseCons(segment: Bytes, more: seq<Bytes>, v: Vertex, vs: seq<Vertex>)
    ensures ParseSegments([segment] + more) == Some([v] + vs)
       <==> ParseSegment(segment) == Some(v) && ParseSegments(more) == Some(vs)
  {
    hide ParseSegment, ParseSegments;
    var all, values := [segment] + more, [v] + vs;
    ParseSegmentsExactly(all, values);
    ParseSegmentsExactly(more, vs);
    if ParsesTo(all, values) {
      assert all[0] == segment && values[0] == v;
      forall i | 0 <= i < |vs| ensures ParseSegment(more[i]) == Some(vs[i]) {
        assert all[i + 1] == more[i] && values[i + 1] == vs[i];
      }
    }
  }

  /** A segment that ends inside the header reads an empty payload from the cleared chunk. */
  lemma ShortSegment(segment: Bytes)
    requires |segment| <= 16
    ensures ParseSegment(segment).Some? ==> ParseSegment(segment).value.payload == []
  {
    var chunk := segment + Zeros(MAX_STREAM_SIZE - |segment|);
    assert chunk[16..20] == [0, 0, 0, 0];
  }

  /** The received vertices are the sent ones exactly when every header in the packet is clean. */
  lemma {:induction false} ReceiveStream(word: Bytes, vs: seq<Vertex>)
    requires |word| == 4 && vs != [] && AllBuilt(vs) && FitChunks(vs)
    requires forall i :: 0 <= i < |vs| ==> vs[i].payload != []
    ensures Receive(Stream(word, vs)) == Some(vs) <==> CleanStream(word, vs)
    decreases |vs|
  {
    SplitStream(word, vs);
    ParseEncodings(word, vs);
    if !CleanStream(word, vs) { DamagedStream(word, vs); }
  }

  lemma {:induction false} DamagedStream(word: Bytes, vs: seq<Vertex>)
    requires |word| == 4 && vs != [] && AllBuilt(vs) && FitChunks(vs)
    requires forall i :: 0 <= i < |vs| ==> vs[i].payload != []
    requires !CleanStream(word, vs)
    ensures Receive(Stream(word, vs)) != Some(vs)
    decreases |vs|
  {
    var e, rest := Framed(word, vs[0]), Stream(Zeros(4), vs[1..]);
    var b := Stream(word, vs);
    FirstSegment(word, vs[0], rest);
    var j := FirstFire(b, 0);
    var cut := Split(b);
    assert cut.segments[0] == b[..j + 4];
    assert vs == [vs[0]] + vs[1..];
    if cut.complete {
      hide Framed, Stream, ParseSegments, ParseSegment, FirstFire, Split;
      assert cut.segments == [cut.segments[0]] + cut.segments[1..];
      ParseCons(cut.segments[0], cut.segments[1..], vs[0], vs[1..]);
      if j < 13 {
        ShortSegment(b[..j + 4]);
      } else {
        Peel(e, rest);
        SplitOff(b, j);
        DamagedStream(Zeros(4), vs[1..]);
      }
    }
  }

  lemma SplitOff(b: Bytes, j: nat)
    requires j == FirstFire(b, 0) && j + 4 < |b|
    ensures Split(b) == Cut([b[..j + 4]] + Split(b[j + 4..]).segments, Split(b[j + 4..]).complete)
    ensures Split(b).segments[1..] == Split(b[j + 4..]).segments
  {
    CutAt(b, j);
    hide Split, FirstFire;
  }

  // ---- What a packet with an unclean header delivers ----

  /** The payload is text of digits and '-', and longer than the position of any false delimiter in the header. */
  predicate Sturdy(word: Bytes, v: Vertex)
    requires |word| == 4 && Representable(v)
  {
    && (forall i :: 0 <= i < |v.payload| ==> v.payload[i] >= 45)
    && forall i :: 0 <= i < 13 && Fires(Header(word, v), i) ==> i < |v.payload|
  }

  lemma PayloadAt(word: Bytes, v: Vertex, i: nat)
    requires |word| == 4 && Representable(v) && i < |v.payload|
    ensures |Framed(word, v)| == EncodedSize(v) && Framed(word, v)[20 + i] == v.payload[i]
  {
    hide BE32, BE64, RefsPart, Framed;
    FramedSize(word, v);
    FramedFields(word, v, []);
    assert Framed(word, v) + [] == Framed(word, v);
    Fields(word, BE32(ToU32(v.round)), BE64(v.pid), BE32(|v.payload|), v.payload, RefsPart(v.refs) + (DELIMITER + []));
    assert Framed(word, v)[20..20 + |v.payload|][i] == v.payload[i];
  }

  /** A size field whose high byte is a payload character announces more than the chunk holds. */
  lemma HugeSize(segment: Bytes)
    requires |segment| > 16 && segment[16] >= 45
    ensures ParseSegment(segment) == None
  {
    var chunk := segment + Zeros(if |segment| <= MAX_STREAM_SIZE then MAX_STREAM_SIZE - |segment| else 0);
    assert chunk[16] == segment[16];
  }

  lemma OneFails(segment: Bytes, more: seq<Bytes>)
    ensures ParseSegment(segment) == None || ParseSegments(more) == None ==> ParseSegments([segment] + more) == None
  {
    hide ParseSegment;
    var all := [segment] + more;
    assert all[0] == segment && forall i :: 0 <= i < |more| ==> all[i + 1] == more[i];
  }

  /** Where the next cut falls in an encoding that has been cut open inside its header. */
  lemma NextCut(word: Bytes, v: Vertex, rest: Bytes, a: nat) returns (j: nat)
    requires |word| == 4 && Built(v) && a <= 16
    ensures |Framed(word, v)| == EncodedSize(v)
    ensures j == FirstFire(Framed(word, v)[a..] + rest, 0) && a + j <= EncodedSize(v) - 4
    ensures a + j == EncodedSize(v) - 4 || (a + j < 13 && Fires(Header(word, v), a + j))
  {
    hide Header, Body;
    var e, d := Framed(word, v), EncodedSize(v) - 4;
    FramedSize(word, v);
    assert e[d..] == DELIMITER by { assert e == word + Body(v) + DELIMITER; }
    var t := e[a..] + rest;
    assert t[d - a] == e[d] == e[d..][0] && t[d - a + 3] == e[d + 3] == e[d..][3];
    assert Fires(t, d - a);
    j := FirstFire(t, 0);
    if a + j < d {
      assert t[j] == e[a + j] && t[j + 3] == e[a + j + 3];
      FiresBeforeDelimiter(word, v, a + j);
    }
  }

  /** The segments of a stream cut at j. */
  lemma CutAt(t: Bytes, j: nat)
    requires j == FirstFire(t, 0) && j + 4 <= |t|
    ensures j + 4 == |t| ==> Split(t) == Cut([t], true)
    ensures j + 4 < |t| ==> Split(t) == Cut([t[..j + 4]] + Split(t[j + 4..]).segments, Split(t[j + 4..]).complete)
  {
    hide FirstFire;
  }

  /** Once an encoding has been cut inside its header, its last piece does not parse. */
  lemma {:induction false} Mangled(word: Bytes, v: Vertex, rest: Bytes, a: nat)
    requires |word| == 4 && Built(v) && Sturdy(word, v) && 4 <= a <= 16 && a - 4 < |v.payload|
    ensures |Framed(word, v)| == EncodedSize(v)
    ensures ParseSegments(Split(Framed(word, v)[a..] + rest).segments) == None
    decreases 16 - a
  {
    hide Framed, Header, ParseSegments, ParseSegment, Split, FirstFire;
    var j := NextCut(word, v, rest, a);
    var e := Framed(word, v);
    var t := e[a..] + rest;
    CutAt(t, j);
    OneFails(t[..j + 4], Split(t[j + 4..]).segments);
    if a + j == EncodedSize(v) - 4 {
      PayloadAt(word, v, a - 4);
      assert t[..j + 4] == e[a..];
      HugeSize(e[a..]);
      OneFails(t, []);
      assert [t] + [] == [t];
      if j + 4 == |t| { assert t == e[a..]; }
    } else {
      Mangled(word, v, rest, a + j + 4);
      assert t[j + 4..] == e[a + j + 4..] + rest;
    }
  }

  /** The packet's word for the first header, cleared words for the others. */
  predicate AllSturdy(word: Bytes, vs: seq<Vertex>)
    requires |word| == 4 && AllRepresentable(vs)
    decreases |vs|
  {
    vs == [] || (Sturdy(word, vs[0]) && AllSturdy(Zeros(4), vs[1..]))
  }

  lemma UncleanHead(word: Bytes, v: Vertex, rest: Bytes)
    requires |word| == 4 && Built(v) && Sturdy(word, v) && !CleanHeader(word, v)
    ensures ParseSegments(Split(Framed(word, v) + rest).segments) == None
  {
    hide Framed, ParseSegments, ParseSegment, Split, FirstFire, CleanHeader, Header, Fires;
    FirstSegment(word, v, rest);
    var e := Framed(word, v);
    var b, j := e + rest, FirstFire(e + rest, 0);
    FirstCutFires(word, v, rest, j);
    CutAt(b, j);
    OneFails(b[..j + 4], Split(b[j + 4..]).segments);
    Mangled(word, v, rest, j + 4);
    assert b[j + 4..] == e[j + 4..] + rest;
  }

  lemma CleanHead(word: Bytes, v: Vertex, rest: Bytes)
    requires |word| == 4 && Built(v) && CleanHeader(word, v) && rest != []
    ensures ParseSegments(Split(rest).segments) == None ==> ParseSegments(Split(Framed(word, v) + rest).segments) == None
  {
    FirstSegment(word, v, rest);
    var e := Framed(word, v);
    var b, j := e + rest, FirstFire(e + rest, 0);
    hide Framed, ParseSegments, ParseSegment, Split, FirstFire, CleanHeader, Header, Fires, Built;
    CutAt(b, j);
    Peel(e, rest);
    OneFails(b[..j + 4], Split(b[j + 4..]).segments);
  }

  lemma {:induction false} UncleanFails(word: Bytes, vs: seq<Vertex>)
    requires |word| == 4 && AllBuilt(vs) && AllSturdy(word, vs) && !CleanStream(word, vs)
    ensures ParseSegments(Split(Stream(word, vs)).segments) == None
    decreases |vs|
  {
    hide Framed, ParseSegments, ParseSegment, Split, CleanHeader, Sturdy, Built;
    var rest := Stream(Zeros(4), vs[1..]);
    StreamEmpty(vs[1..]);
    if CleanHeader(word, vs[0]) {
      UncleanFails(Zeros(4), vs[1..]);
      CleanHead(word, vs[0], rest);
    } else {
      UncleanHead(word, vs[0], rest);
    }
  }

  lemma FirstCutFires(word: Bytes, v: Vertex, rest: Bytes, j: nat)
    requires |word| == 4 && Built(v) && j == FirstFire(Framed(word, v) + rest, 0) < 13
    ensures Fires(Header(word, v), j) && j + 4 < EncodedSize(v)
  {
    var k := NextCut(word, v, rest, 0);
    assert Framed(word, v)[0..] == Framed(word, v);
  }

  lemma StreamEmpty(vs: seq<Vertex>)
    requires AllRepresentable(vs)
    ensures Stream(Zeros(4), vs) == [] ==> vs == []
  {
  }

  /** A packet arrives intact or not at all: all its vertices when every header is clean, else a failed receive. */
  lemma IntactOrNothing(word: Bytes, vs: seq<Vertex>)
    requires |word| == 4 && vs != [] && AllBuilt(vs) && FitChunks(vs) && AllSturdy(word, vs)
    requires forall i :: 0 <= i < |vs| ==> vs[i].payload != []
    ensures Receive(Stream(word, vs)) == if CleanStream(word, vs) then Some(vs) else None
  {
    ReceiveStream(word, vs);
    if !CleanStream(word, vs) { UncleanFails(word, vs); }
  }

  lemma {:induction false} TailCompletes(word: Bytes, v: Vertex, rest: Bytes, a: nat)
    requires |word| == 4 && Built(v) && a <= 16
    ensures |Framed(word, v)| == EncodedSize(v)
    ensures Split(Framed(word, v)[a..] + rest).complete <==> rest == [] || Split(rest).complete
    decreases 16 - a
  {
    hide Framed, Header, Split, FirstFire;
    var j := NextCut(word, v, rest, a);
    var e := Framed(word, v);
    var t := e[a..] + rest;
    CutAt(t, j);
    if a + j == EncodedSize(v) - 4 {
      if rest != [] { assert t[j + 4..] == rest; }
    } else {
      TailCompletes(word, v, rest, a + j + 4);
      assert t[j + 4..] == e[a + j + 4..] + rest;
    }
  }

  /** However its headers are cut, a packet ends in a delimiter, so the receiving loop never asks for a second buffer. */
  lemma {:induction false} OneBufferSuffices(word: Bytes, vs: seq<Vertex>)
    requires |word| == 4 && vs != [] && AllBuilt(vs)
    ensures Split(Stream(word, vs)).complete
    decreases |vs|
  {
    hide Framed, Split, Built;
    var e, rest := Framed(word, vs[0]), Stream(Zeros(4), vs[1..]);
    TailCompletes(word, vs[0], rest, 0);
    assert e[0..] == e;
    if vs[1..] != [] { OneBufferSuffices(Zeros(4), vs[1..]); }
  }

  // ---- The receiving loop ----

  lemma NoFireSoFar(b: Bytes, start: nat, i: nat)
    requires start <= i <= |b|
    requires forall k :: start <= k < i ==> !Fires(b, k)
    ensures FirstFire(b[start..], 0) >= i - start
    ensures i < |b| && Fires(b, i) ==> FirstFire(b[start..], 0) == i - start
    ensures i == |b| ==> Split(b[start..]) == Cut([], false)
  {
    var t, j := b[start..], FirstFire(b[start..], 0);
    if j < i - start { assert Fires(b, start + j); }
    if i < |b| && Fires(b, i) { assert Fires(t, i - start); }
  }

  /** Cutting one segment off the part of the stream that starts at `start`. */
  lemma CutOne(b: Bytes, start: nat, i: nat)
    requires start <= i && i + 3 < |b| && Fires(b, i)
    requires forall k :: start <= k < i ==> !Fires(b, k)
    ensures i + 4 == |b| ==> Split(b[start..]) == Cut([b[start..i + 4]], true)
    ensures i + 4 < |b| ==> (Split(b[start..])
      == Cut([b[start..i + 4]] + Split(b[i + 4..]).segments, Split(b[i + 4..]).complete))
  {
    var t, j := b[start..], i - start;
    NoFireSoFar(b, start, i);
    assert t[j + 4..] == b[i + 4..];
    assert t[..j + 4] == b[start..i + 4];
    if i + 4 == |b| { assert t == b[start..i + 4]; }
  }

  lemma FiresInBuffer(buffer: array<Byte>, len: nat, i: nat)
    requires i < len <= buffer.Length && forall k :: len <= k < buffer.Length ==> buffer[k] == 0
    ensures Fires(buffer[..len], i) <==> buffer[i] == HASH && i + 3 < buffer.Length && buffer[i + 3] == HASH
    ensures Fires(buffer[..len], i) ==> i + 3 < len
  {
  }

  lemma AnyFails(segments: seq<Bytes>, i: nat)
    requires i < |segments| && ParseSegment(segments[i]) == None
    ensures ParseSegments(segments) == None
  {
    hide ParseSegment;
  }

  lemma SameSlice(buffer: array<Byte>, len: nat, start: nat, end: nat)
    requires start <= end <= len <= buffer.Length
    ensures buffer[..len][start..end] == buffer[start..end]
  {
  }

  /** One segment: copied into the cleared chunk, parsed from there into the vertex object, and the chunk cleared again. */
  method ParseChunk(buffer: array<Byte>, start: nat, size: nat, chunkBuffer: array<Byte>, v: VertexObject) returns (ok: bool)
    requires start + size <= buffer.Length && buffer != chunkBuffer
    requires chunkBuffer.Length == MAX_STREAM_SIZE && chunkBuffer[..] == Zeros(MAX_STREAM_SIZE)
    modifies chunkBuffer, v
    ensures chunkBuffer[..] == Zeros(MAX_STREAM_SIZE)
    ensures ok <==> ParseSegment(buffer[start..start + size]).Some?
    ensures ok ==> ParseSegment(buffer[start..start + size]) == Some(v.View())
  {
    hide Parse;
    if size > MAX_STREAM_SIZE { return false; }
    ghost var segment := buffer[start..start + size];
    forall i | 0 <= i < size { chunkBuffer[i] := buffer[start + i]; }
    assert chunkBuffer[..] == segment + Zeros(MAX_STREAM_SIZE - size);
    ok := v.DeserializeData(chunkBuffer);
    forall i | 0 <= i < MAX_STREAM_SIZE { chunkBuffer[i] := 0; }
    assert chunkBuffer[..] == Zeros(MAX_STREAM_SIZE);
    assert buffer[start..start + size] == segment;
  }

  /** One received buffer of c_recvn: scan for the delimiter test, cut, parse each segment from a cleared chunk. */
  method RecvN(buffer: array<Byte>, len: nat) returns (ok: bool, vertices: seq<Vertex>)
    requires len <= buffer.Length
    requires forall i :: len <= i < buffer.Length ==> buffer[i] == 0
    ensures ok ==> Receive(buffer[..len]) == Some(vertices)
    ensures !ok ==> Receive(buffer[..len]) == None
  {
    hide Split, FirstFire, ParseSegment, ParseSegments, Fires;
    var chunkBuffer := new Byte[MAX_STREAM_SIZE](_ => 0);
    assert chunkBuffer[..] == Zeros(MAX_STREAM_SIZE);
    var v := new VertexObject(0, 0, []);
    ghost var b: Bytes, segments: seq<Bytes> := buffer[..len], [];
    var segmentStart, byteCounter, delimiterFound := 0, 0, false;
    ok, vertices := true, [];
    assert b[0..] == b;
    while byteCounter < len && !delimiterFound
      invariant 0 <= segmentStart <= byteCounter <= len && chunkBuffer[..] == Zeros(MAX_STREAM_SIZE)
      invariant forall k :: segmentStart <= k < byteCounter ==> !Fires(b, k)
      invariant |segments| == |vertices|
      invariant forall i :: 0 <= i < |segments| ==> ParseSegment(segments[i]) == Some(vertices[i])
      invariant delimiterFound ==> Split(b) == Cut(segments, true)
      invariant !delimiterFound ==> Split(b) == Cut(segments + Split(b[segmentStart..]).segments, Split(b[segmentStart..]).complete)
    {
      FiresInBuffer(buffer, len, byteCounter);
      if buffer[byteCounter] == HASH && byteCounter + 3 < buffer.Length && buffer[byteCounter + 3] == HASH {
        CutOne(b, segmentStart, byteCounter);
        var segmentSize := byteCounter + 4 - segmentStart;
        ghost var before, segment := segments, b[segmentStart..byteCounter + 4];
        SameSlice(buffer, len, segmentStart, byteCounter + 4);
        segments := segments + [segment];
        if byteCounter + 4 < len {
          ghost var rest := Split(b[byteCounter + 4..]);
          assert before + ([segment] + rest.segments) == segments + rest.segments;
        }
        var parsed := ParseChunk(buffer, segmentStart, segmentSize, chunkBuffer, v);
        if !parsed {
          // A field of this segment leaves its chunk.
          assert Split(b).segments[|before|] == segment;
          AnyFails(Split(b).segments, |before|);
          return false, [];
        }
        vertices := vertices + [v.View()];
        byteCounter := byteCounter + 4;
        segmentStart := byteCounter;
        delimiterFound := byteCounter == len;
      } else {
        byteCounter := byteCounter + 1;
      }
    }
    if delimiterFound {
      ParseSegmentsExactly(segments, vertices);
    } else {
      NoFireSoFar(b, segmentStart, byteCounter);
      ok := false;
    }
  }
}
