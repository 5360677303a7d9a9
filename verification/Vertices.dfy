/** Vertices and their wire format (vertex.cpp). */
module Vertices {
  import opened ByteStrings
  import opened FiniteSets

  datatype Option<+T> = None | Some(value: T)

  type Key = Bytes

  const HASH: Byte := 35          // '#', the delimiter character
  const DELIMITER: Bytes := [HASH, HASH, HASH, HASH]
  const MAX_STREAM_SIZE := 65536
  const HEX_HASH := 64

  datatype Vertex = Vertex(round: int, pid: nat, payload: Bytes, refs: seq<Key>)

  /** What the C++ field types and the 32-bit counters can hold. */
  predicate Representable(v: Vertex) {
    && -0x8000_0000 <= v.round < 0x8000_0000
    && v.pid < TWO_64
    && |v.payload| < TWO_32
    && |v.refs| < TWO_32
    && (v.refs != [] ==> |v.refs[0]| < TWO_32)
  }

  predicate UniformRefs(refs: seq<Key>) {
    forall i :: 0 <= i < |refs| ==> |refs[i]| == |refs[0]|
  }

  // ---- The printed form ----

  function RefsPart(refs: seq<Key>): Bytes
    requires |refs| < TWO_32 && (refs != [] ==> |refs[0]| < TWO_32)
  {
    BE32(|refs|) + if refs == [] then [] else BE32(|refs[0]|) + Concat(refs)
  }

  /** Everything between the length word and the delimiter. */
  function Body(v: Vertex): Bytes
    requires Representable(v)
  {
    BE32(ToU32(v.round)) + (BE64(v.pid) + (BE32(|v.payload|) + (v.payload + RefsPart(v.refs))))
  }

  /** An encoding whose first four bytes carry the given length word. */
  function Framed(word: Bytes, v: Vertex): Bytes
    requires |word| == 4 && Representable(v)
  {
    word + (Body(v) + DELIMITER)
  }

  function Encode(v: Vertex): Bytes
    requires Representable(v)
  {
    Framed(Zeros(4), v)
  }

  function TotalLength(refs: seq<Key>): nat {
    if refs == [] then 0 else |refs[0]| + TotalLength(refs[1..])
  }

  /** The closed form of the size of an encoding. */
  function EncodedSize(v: Vertex): nat {
    28 + |v.payload| + if v.refs == [] then 0 else 4 + TotalLength(v.refs)
  }

  lemma {:induction false} ConcatLength(parts: seq<Bytes>)
    ensures |Concat(parts)| == TotalLength(parts)
  {
    if parts != [] { ConcatLength(parts[1..]); }
  }

  lemma {:induction false} UniformLength(refs: seq<Key>, width: nat)
    requires forall i :: 0 <= i < |refs| ==> |refs[i]| == width
    ensures TotalLength(refs) == |refs| * width
  {
    if refs != [] {
      UniformLength(refs[1..], width);
      var n := |refs[1..]|;
      assert (n + 1) * width == n * width + width;
    }
  }

  lemma FramedSize(word: Bytes, v: Vertex)
    requires |word| == 4 && Representable(v)
    ensures |Framed(word, v)| == EncodedSize(v)
  {
    ConcatLength(v.refs);
  }

  // ---- The parser ----

  /** `count` strings of `width` bytes each; None when the reads leave the buffer. */
  function ParseRefs(b: Bytes, count: nat, width: nat): (r: Option<seq<Key>>)
    ensures r.Some? ==> |r.value| == count && forall i :: 0 <= i < count ==> |r.value[i]| == width
  {
    if count == 0 then Some([])
    else if |b| < width then None
    else
      match ParseRefs(b[width..], count - 1, width)
      case None => None
      case Some(rest) => Some([b[..width]] + rest)
  }

  function Prepend(done: seq<Key>, rest: Option<seq<Key>>): Option<seq<Key>> {
    match rest
    case None => None
    case Some(refs) => Some(done + refs)
  }

  lemma PrependOne(done: seq<Key>, next: Key, rest: Option<seq<Key>>)
    ensures Prepend(done, Prepend([next], rest)) == Prepend(done + [next], rest)
    ensures Prepend([], rest) == rest
  {
    if rest.Some? {
      assert [] + rest.value == rest.value;
      assert done + ([next] + rest.value) == done + [next] + rest.value;
    }
  }

  lemma ParseRefsStep(b: Bytes, count: nat, width: nat)
    requires count > 0
    ensures |b| < width ==> ParseRefs(b, count, width) == None
    ensures |b| >= width ==> ParseRefs(b, count, width) == Prepend([b[..width]], ParseRefs(b[width..], count - 1, width))
  {
  }

  lemma ParseNoRefs(b: Bytes, width: nat)
    ensures ParseRefs(b, 0, width) == Some([])
  {
  }

  function ParseRefsPart(b: Bytes): Option<seq<Key>> {
    if |b| < 4 then None else
      var count := U32(b[..4]);
      if count == 0 then Some([])
      else if |b| < 8 then None
      else ParseRefs(b[8..], count, U32(b[4..8]))
  }

  /** Fields read in order after the length word; None when the reads leave the buffer. */
  function Parse(b: Bytes): Option<Vertex> {
    if |b| < 20 then None else
      var round := FromU32(U32(b[4..8]));
      var pid := U64(b[8..16]);
      var size := U32(b[16..20]);
      if |b| < 20 + size then None else
        match ParseRefsPart(b[20 + size..])
        case None => None
        case Some(refs) => Some(Vertex(round, pid, b[20..20 + size], refs))
  }

  lemma ParseRefsCons(head: Bytes, rest: Bytes, count: nat)
    requires ParseRefs(rest, count, |head|).Some?
    ensures ParseRefs(head + rest, count + 1, |head|) == Some([head] + ParseRefs(rest, count, |head|).value)
  {
    Peel(head, rest);
  }

  lemma {:induction false} ParseRefsInverts(refs: seq<Key>, width: nat, tail: Bytes)
    requires forall i :: 0 <= i < |refs| ==> |refs[i]| == width
    ensures ParseRefs(Concat(refs) + tail, |refs|, width) == Some(refs)
  {
    if refs != [] {
      hide ParseRefs;
      var rest := Concat(refs[1..]) + tail;
      assert Concat(refs) + tail == refs[0] + rest;
      ParseRefsInverts(refs[1..], width, tail);
      ParseRefsCons(refs[0], rest, |refs| - 1);
      assert refs == [refs[0]] + refs[1..];
    }
  }

  lemma ParseRefsPartInverts(refs: seq<Key>, tail: Bytes)
    requires |refs| < TWO_32 && (refs != [] ==> |refs[0]| < TWO_32)
    ensures UniformRefs(refs) ==> ParseRefsPart(RefsPart(refs) + tail) == Some(refs)
    ensures !UniformRefs(refs) ==> ParseRefsPart(RefsPart(refs) + tail) != Some(refs)
  {
    var b := RefsPart(refs) + tail;
    var n := BE32(|refs|);
    U32BE32(|refs|);
    if refs == [] {
      assert b[..4] == n;
    } else {
      var w := BE32(|refs[0]|);
      var rest := Concat(refs) + tail;
      U32BE32(|refs[0]|);
      assert b == n + w + rest;
      assert b[..4] == n && b[4..8] == w && b[8..] == rest;
      if UniformRefs(refs) {
        ParseRefsInverts(refs, |refs[0]|, tail);
      }
    }
  }

  /** Cutting six consecutive fields out of their concatenation. */
  lemma Fields(word: Bytes, round: Bytes, pid: Bytes, size: Bytes, payload: Bytes, rest: Bytes)
    requires |word| == |round| == |size| == 4 && |pid| == 8
    ensures var b := word + (round + (pid + (size + (payload + rest))));
            && |b| == 20 + |payload| + |rest|
            && b[4..8] == round && b[8..16] == pid && b[16..20] == size
            && b[20..20 + |payload|] == payload && b[20 + |payload|..] == rest
  {
    var b3 := size + (payload + rest);
    var b2 := pid + b3;
    var b1 := round + b2;
    var b := word + b1;
    Peel(word, b1);
    Peel(round, b2);
    Peel(pid, b3);
    Peel(size, payload + rest);
    Peel(payload, rest);
    assert b[4..8] == b1[..4] && b[8..16] == b2[..8] && b[16..20] == b3[..4];
    assert b[20..20 + |payload|] == b3[4..4 + |payload|] && b[20 + |payload|..] == b3[4 + |payload|..];
  }

  lemma Associate(word: Bytes, round: Bytes, pid: Bytes, size: Bytes, payload: Bytes, refs: Bytes, end: Bytes, tail: Bytes)
    ensures (word + ((round + (pid + (size + (payload + refs)))) + end)) + tail
         == word + (round + (pid + (size + (payload + (refs + (end + tail))))))
    ensures word + round + pid + size + payload + refs + end
         == word + ((round + (pid + (size + (payload + refs)))) + end)
  {
  }

  lemma ParseOfFields(word: Bytes, round: Bytes, pid: Bytes, size: Bytes, payload: Bytes, rest: Bytes)
    requires |word| == |round| == |size| == 4 && |pid| == 8 && U32(size) == |payload|
    ensures Parse(word + (round + (pid + (size + (payload + rest)))))
         == match ParseRefsPart(rest)
            case None => None
            case Some(refs) => Some(Vertex(FromU32(U32(round)), U64(pid), payload, refs))
  {
    Fields(word, round, pid, size, payload, rest);
  }

  lemma FramedFields(word: Bytes, v: Vertex, tail: Bytes)
    requires |word| == 4 && Representable(v)
    ensures Framed(word, v) + tail
         == word + (BE32(ToU32(v.round)) + (BE64(v.pid) + (BE32(|v.payload|)
                 + (v.payload + (RefsPart(v.refs) + (DELIMITER + tail))))))
  {
    Associate(word, BE32(ToU32(v.round)), BE64(v.pid), BE32(|v.payload|), v.payload, RefsPart(v.refs), DELIMITER, tail);
  }

  /** Parsing an encoding, under any length word and before any following bytes, gives the vertex
      back exactly when all its references have the length of the first one. */
  lemma RoundTrip(word: Bytes, v: Vertex, tail: Bytes)
    requires |word| == 4 && Representable(v)
    ensures Parse(Framed(word, v) + tail) == Some(v) <==> UniformRefs(v.refs)
  {
    hide Parse, ParseRefsPart, RefsPart, Framed, BE32, BE64, U32, U64;
    U32BE32(ToU32(v.round));
    U64BE64(v.pid);
    U32BE32(|v.payload|);
    FramedFields(word, v, tail);
    ParseRefsPartInverts(v.refs, DELIMITER + tail);
    ParseOfFields(word, BE32(ToU32(v.round)), BE64(v.pid), BE32(|v.payload|), v.payload, RefsPart(v.refs) + (DELIMITER + tail));
  }

  /** attach_length_to_msg overwrites the first four bytes. */
  function WithLength(b: Bytes): Bytes
    requires 4 <= |b| < TWO_32
  {
    BE32(|b|) + b[4..]
  }

  /** Overwriting the placeholder only changes the length word. */
  lemma WithLengthOfEncode(v: Vertex, rest: Bytes)
    requires Representable(v) && EncodedSize(v) + |rest| < TWO_32
    ensures |Encode(v) + rest| == EncodedSize(v) + |rest|
    ensures WithLength(Encode(v) + rest) == Framed(BE32(EncodedSize(v) + |rest|), v) + rest
  {
    FramedSize(Zeros(4), v);
    assert (Encode(v) + rest)[4..] == Body(v) + DELIMITER + rest;
  }

  lemma UnevenPart(tail: Bytes)
    requires |tail| >= 1
    ensures ParseRefsPart(RefsPart([[1], [2, 3]]) + tail).Some?
  {
    var refs: seq<Key> := [[1], [2, 3]];
    assert Concat(refs) == [1, 2, 3] by { assert refs[1..] == [[2, 3]] && refs[1..][1..] == []; }
    U32BE32(2);
    U32BE32(1);
    var head, part := BE32(2) + BE32(1), RefsPart(refs);
    assert part == head + [1, 2, 3];
    var b := part + tail;
    assert b[..4] == BE32(2) && b[4..8] == BE32(1) && b[8..] == [1, 2, 3] + tail;
    hide ParseRefs, BE32, U32;
    ParseRefsStep(b[8..], 2, 1);
    ParseRefsStep(b[8..][1..], 1, 1);
    ParseNoRefs(b[8..][1..][1..], 1);
  }

  /** References of different lengths are printed under the length of the first one and read back as something else. */
  lemma UnevenReferences()
    ensures var v := Vertex(2, 1, [], [[1], [2, 3]]);
            Representable(v) && Parse(Encode(v)).Some? && Parse(Encode(v)) != Some(v)
  {
    var refs: seq<Key> := [[1], [2, 3]];
    var v := Vertex(2, 1, [], refs);
    assert |refs[0]| == 1 && |refs[1]| == 2;
    hide Parse, ParseRefsPart, RefsPart, Framed, BE32, BE64, U32, U64;
    RoundTrip(Zeros(4), v, []);
    assert Encode(v) + [] == Encode(v);
    FramedFields(Zeros(4), v, []);
    UnevenPart(DELIMITER + []);
    U32BE32(0);
    ParseOfFields(Zeros(4), BE32(ToU32(2)), BE64(1), BE32(0), [], RefsPart(refs) + (DELIMITER + []));
  }

  // ---- The layout, byte by byte ----

  /** The number in four bytes, high byte first. */
  function BigEndian(b: Bytes, at: nat): int
    requires at + 4 <= |b|
  {
    b[at] as int * 0x100_0000 + b[at + 1] as int * 0x1_0000 + b[at + 2] as int * 0x100 + b[at + 3] as int
  }

  lemma BigEndianOf(x: int, b: Bytes, at: nat)
    requires 0 <= x < TWO_32 && at + 4 <= |b| && b[at..at + 4] == BE32(x)
    ensures BigEndian(b, at) == x
  {
    U32BE32(x);
    var word := b[at..at + 4];
    assert word[0] == b[at] && word[1] == b[at + 1] && word[2] == b[at + 2] && word[3] == b[at + 3];
  }

  lemma {:induction false} ConcatAt(refs: seq<Key>, width: nat, i: nat)
    requires i < |refs| && forall j :: 0 <= j < |refs| ==> |refs[j]| == width
    ensures |Concat(refs)| == |refs| * width && (i + 1) * width <= |refs| * width
    ensures Concat(refs)[i * width..(i + 1) * width] == refs[i]
  {
    ConcatLength(refs);
    UniformLength(refs, width);
    Rows(i + 1, |refs|, width);
    if i > 0 {
      ConcatAt(refs[1..], width, i - 1);
      assert Concat(refs) == refs[0] + Concat(refs[1..]);
      assert (i - 1) * width + width == i * width && i * width + width == (i + 1) * width;
      var rest := Concat(refs[1..]);
      assert Concat(refs)[i * width..(i + 1) * width] == rest[(i - 1) * width..i * width];
    }
  }

  lemma Rows(m: nat, n: nat, width: nat)
    requires m <= n
    ensures m * width <= n * width
  {
  }

  /** An encoding: four bytes for the length; the round, negative ones as two's complement, at 4; the id at 8; the length of
      the payload at 16; the payload at 20; then the number of references, their common length and the references one
      after the other; and four '#' at the end. All numbers have their high byte first. */
  lemma Layout(word: Bytes, v: Vertex)
    requires |word| == 4 && Representable(v)
    ensures var b, n := Framed(word, v), 20 + |v.payload|;
            && n + 8 <= |b| && b[..4] == word
            && BigEndian(b, 4) == (if v.round >= 0 then v.round else v.round + 0x1_0000_0000)
            && BigEndian(b, 8) * 0x1_0000_0000 + BigEndian(b, 12) == v.pid
            && BigEndian(b, 16) == |v.payload| && b[20..n] == v.payload
            && BigEndian(b, n) == |v.refs|
            && (v.refs != [] ==> n + 12 <= |b| && BigEndian(b, n + 4) == |v.refs[0]| && b[n + 8..|b| - 4] == Concat(v.refs))
            && (v.refs == [] ==> |b| == n + 8)
            && b[|b| - 4..] == [35, 35, 35, 35]
  {
    hide Framed, BE32, BE64, RefsPart;
    var b, n := Framed(word, v), 20 + |v.payload|;
    LayoutSlices(word, v);
    BigEndianOf(ToU32(v.round), b, 4);
    BigEndianOf(|v.payload|, b, 16);
    BigEndianOf(|v.refs|, b, n);
    LayoutId(v.pid, b);
    if v.refs != [] { LayoutRefs(v.refs, b, n); } else { LayoutNoRefs(b, n); }
  }

  lemma LayoutSlices(word: Bytes, v: Vertex)
    requires |word| == 4 && Representable(v)
    ensures var b, n := Framed(word, v), 20 + |v.payload|;
            && n + 8 <= |b| && b[..4] == word && b[4..8] == BE32(ToU32(v.round)) && b[8..16] == BE64(v.pid)
            && b[16..20] == BE32(|v.payload|) && b[20..n] == v.payload && b[n..|b| - 4] == RefsPart(v.refs)
            && b[|b| - 4..] == DELIMITER && b[n..n + 4] == BE32(|v.refs|)
  {
    hide Framed, BE32, BE64, RefsPart;
    CountFirst(v.refs);
    FramedWhole(word, v);
    LayoutHead(word, BE32(ToU32(v.round)), BE64(v.pid), BE32(|v.payload|), v.payload, RefsPart(v.refs));
  }

  lemma FramedWhole(word: Bytes, v: Vertex)
    requires |word| == 4 && Representable(v)
    ensures Framed(word, v)
         == word + (BE32(ToU32(v.round)) + (BE64(v.pid) + (BE32(|v.payload|) + (v.payload + (RefsPart(v.refs) + DELIMITER)))))
  {
    hide Framed, BE32, BE64, RefsPart;
    FramedFields(word, v, []);
    assert DELIMITER + [] == DELIMITER;
    assert Framed(word, v) + [] == Framed(word, v);
  }

  lemma CountFirst(refs: seq<Key>)
    requires |refs| < TWO_32 && (refs != [] ==> |refs[0]| < TWO_32)
    ensures |RefsPart(refs)| >= 4 && RefsPart(refs)[..4] == BE32(|refs|)
  {
  }

  lemma LayoutHead(word: Bytes, round: Bytes, pid: Bytes, size: Bytes, payload: Bytes, refs: Bytes)
    requires |word| == |round| == |size| == 4 && |pid| == 8
    ensures var b, n := word + (round + (pid + (size + (payload + (refs + DELIMITER))))), 20 + |payload|;
            && |b| == n + |refs| + 4 && b[..4] == word && b[4..8] == round && b[8..16] == pid && b[16..20] == size
            && b[20..n] == payload && b[n..|b| - 4] == refs && b[|b| - 4..] == DELIMITER
            && (|refs| >= 4 ==> b[n..n + 4] == refs[..4])
  {
    Fields(word, round, pid, size, payload, refs + DELIMITER);
    var b, n := word + (round + (pid + (size + (payload + (refs + DELIMITER))))), 20 + |payload|;
    var rest := refs + DELIMITER;
    assert b[n..] == rest;
    assert b[n..|b| - 4] == b[n..][..|refs|] && b[|b| - 4..] == b[n..][|refs|..];
    assert |refs| >= 4 ==> b[n..n + 4] == b[n..][..4];
  }

  lemma LayoutId(pid: nat, b: Bytes)
    requires pid < TWO_64 && |b| >= 16 && b[8..16] == BE64(pid)
    ensures BigEndian(b, 8) * 0x1_0000_0000 + BigEndian(b, 12) == pid
  {
    assert b[8..12] == BE64(pid)[..4] && b[12..16] == BE64(pid)[4..];
    BigEndianOf(pid / TWO_32, b, 8);
    BigEndianOf(pid % TWO_32, b, 12);
  }

  lemma LayoutNoRefs(b: Bytes, n: nat)
    requires n + 4 <= |b| && b[n..|b| - 4] == RefsPart([])
    ensures |b| == n + 8
  {
  }

  lemma LayoutRefs(refs: seq<Key>, b: Bytes, n: nat)
    requires refs != [] && |refs| < TWO_32 && |refs[0]| < TWO_32 && n + 4 <= |b| && b[n..|b| - 4] == RefsPart(refs)
    ensures n + 12 <= |b| && BigEndian(b, n + 4) == |refs[0]| && b[n + 8..|b| - 4] == Concat(refs)
  {
    hide RefsPart, BE32, Concat;
    var m, mid := |b| - 4, b[n..|b| - 4];
    RefsFields(refs);
    SubSlice(b, n, m, 4, 8);
    SubSlice(b, n, m, 8, m - n);
    assert mid[8..] == mid[8..m - n];
    BigEndianOf(|refs[0]|, b, n + 4);
  }

  lemma RefsFields(refs: seq<Key>)
    requires refs != [] && |refs| < TWO_32 && |refs[0]| < TWO_32
    ensures |RefsPart(refs)| >= 8 && RefsPart(refs)[4..8] == BE32(|refs[0]|) && RefsPart(refs)[8..] == Concat(refs)
  {
  }

  lemma SubSlice(b: Bytes, n: nat, m: nat, i: nat, j: nat)
    requires n <= m <= |b| && i <= j <= m - n
    ensures b[n..m][i..j] == b[n + i..n + j]
  {
    var mid := b[n..m];
    forall k | i <= k < j ensures mid[k] == b[n + k] {
    }
    assert |mid[i..j]| == |b[n + i..n + j]|;
    forall k | 0 <= k < j - i ensures mid[i..j][k] == b[n + i..n + j][k] {
      assert mid[i..j][k] == mid[i + k] == b[n + (i + k)];
    }
  }

  // ---- What the parser reads, whatever the bytes ----

  lemma {:induction false} ParseRefsExactly(b: Bytes, count: nat, width: nat)
    ensures ParseRefs(b, count, width).Some? <==> count * width <= |b|
    ensures ParseRefs(b, count, width).Some? ==> Concat(ParseRefs(b, count, width).value) == b[..count * width]
  {
    if count == 0 {
      ParseNoRefs(b, width);
    } else {
      var rest := count - 1;
      ParseRefsStep(b, count, width);
      hide ParseRefs;
      assert count * width == width + rest * width;
      Rows(0, rest, width);
      if |b| >= width {
        ParseRefsExactly(b[width..], rest, width);
        if rest * width <= |b[width..]| {
          var head, tail := b[..width], ParseRefs(b[width..], rest, width).value;
          assert ([head] + tail)[1..] == tail;
          assert b[..count * width] == head + b[width..][..rest * width];
        }
      }
    }
  }

  /** All fields that the bytes announce lie inside them. */
  predicate Contained(b: Bytes) {
    && |b| >= 20 && BigEndian(b, 16) >= 0
    && var n := 20 + BigEndian(b, 16);
       n + 4 <= |b| && (BigEndian(b, n) > 0 ==> n + 8 <= |b| && n + 8 + BigEndian(b, n) * BigEndian(b, n + 4) <= |b|)
  }

  /** The text is what stands at this place. */
  predicate Read(b: Bytes, at: nat, size: int, text: Bytes) {
    0 <= size && at + size <= |b| && text == b[at..at + size]
  }

  lemma BigEndianU32(b: Bytes, at: nat)
    requires at + 4 <= |b|
    ensures BigEndian(b, at) == U32(b[at..at + 4]) >= 0
  {
    var word := b[at..at + 4];
    assert word[0] == b[at] && word[1] == b[at + 1] && word[2] == b[at + 2] && word[3] == b[at + 3];
  }

  lemma ParseRefsPartExactly(b: Bytes, n: nat)
    requires n <= |b|
    ensures ParseRefsPart(b[n..]).Some? <==>
              n + 4 <= |b| && (BigEndian(b, n) > 0 ==> n + 8 <= |b| && n + 8 + BigEndian(b, n) * BigEndian(b, n + 4) <= |b|)
    ensures ParseRefsPart(b[n..]).Some? ==> n + 4 <= |b| && |ParseRefsPart(b[n..]).value| == BigEndian(b, n)
    ensures ParseRefsPart(b[n..]).Some? && BigEndian(b, n) > 0 ==>
              var refs := ParseRefsPart(b[n..]).value;
              && n + 8 <= |b| && (forall i :: 0 <= i < |refs| ==> |refs[i]| == BigEndian(b, n + 4))
              && Read(b, n + 8, |refs| * BigEndian(b, n + 4), Concat(refs))
  {
    hide ParseRefs, U32, BigEndian;
    var part := b[n..];
    if |part| >= 4 {
      BigEndianU32(b, n);
      assert part[..4] == b[n..n + 4];
      if |part| >= 8 {
        BigEndianU32(b, n + 4);
        var count, width := BigEndian(b, n), BigEndian(b, n + 4);
        assert part[4..8] == b[n + 4..n + 8] && part[8..] == b[n + 8..];
        ParseRefsExactly(part[8..], count, width);
        Rows(0, count, width);
        if count * width <= |part[8..]| { SubSlice(b, n + 8, |b|, 0, count * width); }
      }
    }
  }

  /** The parser succeeds exactly when all announced fields lie inside the bytes, and it reads them from where they lie. */
  lemma ParseExactly(b: Bytes)
    ensures Parse(b).Some? <==> Contained(b)
    ensures Parse(b).Some? ==>
              var v, n := Parse(b).value, 20 + BigEndian(b, 16);
              && v.round == (if BigEndian(b, 4) < 0x8000_0000 then BigEndian(b, 4) else BigEndian(b, 4) - 0x1_0000_0000)
              && v.pid == BigEndian(b, 8) * 0x1_0000_0000 + BigEndian(b, 12)
              && 20 <= n <= |b| && v.payload == b[20..n]
              && n + 4 <= |b| && |v.refs| == BigEndian(b, n)
              && (v.refs != [] ==> n + 8 <= |b| && (forall i :: 0 <= i < |v.refs| ==> |v.refs[i]| == BigEndian(b, n + 4)) && Read(b, n + 8, |v.refs| * BigEndian(b, n + 4), Concat(v.refs)))
  {
    hide ParseRefs, ParseRefsPart, U32, BigEndian;
    if |b| >= 20 {
      BigEndianU32(b, 4);
      BigEndianU32(b, 16);
      IdWords(b);
      var n := 20 + BigEndian(b, 16);
      if n <= |b| { ParseRefsPartExactly(b, n); }
    }
  }

  lemma IdWords(b: Bytes)
    requires |b| >= 16
    ensures U64(b[8..16]) == BigEndian(b, 8) * 0x1_0000_0000 + BigEndian(b, 12)
  {
    BigEndianU32(b, 8);
    BigEndianU32(b, 12);
    assert b[8..16][..4] == b[8..12] && b[8..16][4..] == b[12..16];
  }

  // ---- Buffers ----

  /** The buffer starts with the bytes written so far and is clear from there on. */
  ghost predicate Holds(buffer: array<Byte>, written: Bytes)
    reads buffer
  {
    |written| <= buffer.Length && buffer[..] == written + Zeros(buffer.Length - |written|)
  }

  /** memcpy at the end of what has been written. */
  method Append(buffer: array<Byte>, at: nat, bytes: Bytes, ghost written: Bytes) returns (end: nat)
    requires Holds(buffer, written) && at == |written|
    requires at + |bytes| <= buffer.Length
    modifies buffer
    ensures end == at + |bytes|
    ensures Holds(buffer, written + bytes)
  {
    forall i | 0 <= i < |bytes| { buffer[at + i] := bytes[i]; }
    end := at + |bytes|;
  }

  method AttachLength(buffer: array<Byte>, size: nat)
    requires 0 < size < TWO_32 && 4 <= size <= buffer.Length
    modifies buffer
    ensures buffer[..size] == WithLength(old(buffer[..size]))
    ensures buffer[size..] == old(buffer[size..])
  {
    var word := BE32(size);
    buffer[0], buffer[1], buffer[2], buffer[3] := word[0], word[1], word[2], word[3];
  }

  // ---- The vertex object ----

  class VertexObject {
    var round: int
    var peerId: nat
    var payload: Bytes
    var references: seq<Key>

    function View(): Vertex
      reads this
    {
      Vertex(round, peerId, payload, references)
    }

    constructor (round: int, peerId: nat, payload: Bytes)
      ensures View() == Vertex(round, peerId, payload, [])
    {
      this.round, this.peerId, this.payload, this.references := round, peerId, payload, [];
    }

    /** Appends the set, in whatever order it is iterated, when the caller is the creator. */
    method AddRef(keys: set<Key>, caller: nat) returns (added: bool)
      modifies this
      ensures added <==> caller == old(peerId)
      ensures round == old(round) && peerId == old(peerId) && payload == old(payload)
      ensures !added ==> references == old(references)
      ensures added ==>
        && |references| == |old(references)| + |keys|
        && references[..|old(references)|] == old(references)
        && Distinct(references[|old(references)|..])
        && Elements(references[|old(references)|..]) == keys
    {
      added := caller == peerId;
      if added {
        var appended: seq<Key>, left := [], keys;
        while left != {}
          invariant left <= keys && Elements(appended) == keys - left && Distinct(appended)
          decreases left
        {
          var key :| key in left;
          assert key !in Elements(appended) && Elements(appended + [key]) == Elements(appended) + {key};
          appended, left := appended + [key], left - {key};
        }
        EnumerationSize(appended, keys);
        references := references + appended;
        assert references[|old(references)|..] == appended;
      }
    }

    /** Clears the buffer and prints the vertex at a moving offset. */
    method SerializeData(buffer: array<Byte>) returns (size: nat)
      requires Representable(View()) && EncodedSize(View()) <= buffer.Length
      modifies buffer
      ensures size == EncodedSize(View())
      ensures Holds(buffer, Encode(View()))
    {
      ghost var roundWord, pidWord, sizeWord := BE32(ToU32(round)), BE64(peerId), BE32(|payload|);
      FramedSize(Zeros(4), View());
      forall i | 0 <= i < buffer.Length { buffer[i] := 0; }
      size := 4;
      ghost var written := Zeros(4);
      assert Holds(buffer, written);
      size := Append(buffer, size, BE32(ToU32(round)), written);
      written := written + roundWord;
      size := Append(buffer, size, BE64(peerId), written);
      written := written + pidWord;
      size := Append(buffer, size, BE32(|payload|), written);
      written := written + sizeWord;
      size := Append(buffer, size, payload, written);
      written := written + payload;
      size := SerializeRefs(buffer, size, written);
      written := written + RefsPart(references);
      size := Append(buffer, size, DELIMITER, written);
      Associate(Zeros(4), roundWord, pidWord, sizeWord, payload, RefsPart(references), DELIMITER, []);
    }

    /** The reference count, the common width and the references themselves. */
    method SerializeRefs(buffer: array<Byte>, start: nat, ghost written: Bytes) returns (size: nat)
      requires Representable(View())
      requires Holds(buffer, written) && start == |written|
      requires start + |RefsPart(references)| <= buffer.Length
      modifies buffer
      ensures size == start + |RefsPart(references)|
      ensures Holds(buffer, written + RefsPart(references))
    {
      var count := BE32(|references|);
      size := Append(buffer, start, count, written);
      if |references| > 0 {
        var width := BE32(|references[0]|);
        size := Append(buffer, size, width, written + count);
        size := SerializeEach(buffer, size, written + count + width);
        assert written + count + width + Concat(references) == written + (count + (width + Concat(references)));
      }
    }

    method SerializeEach(buffer: array<Byte>, start: nat, ghost written: Bytes) returns (size: nat)
      requires Holds(buffer, written) && start == |written|
      requires start + |Concat(references)| <= buffer.Length
      modifies buffer
      ensures size == start + |Concat(references)|
      ensures Holds(buffer, written + Concat(references))
    {
      size := start;
      var i := 0;
      ghost var done: Bytes := [];
      assert written + done == written;
      while i < |references|
        invariant 0 <= i <= |references|
        invariant Concat(references) == done + Concat(references[i..])
        invariant size == start + |done|
        invariant Holds(buffer, written + done)
      {
        assert references[i..][1..] == references[i + 1..];
        size := Append(buffer, size, references[i], written + done);
        assert written + done + references[i] == written + (done + references[i]);
        assert Concat(references) == done + references[i] + Concat(references[i + 1..]);
        done := done + references[i];
        i := i + 1;
      }
      assert done == Concat(references);
    }

    /** Resets the fields and refills them from the buffer; fails when a read leaves the buffer. */
    method DeserializeData(buffer: array<Byte>) returns (ok: bool)
      modifies this
      ensures ok <==> Parse(buffer[..]).Some?
      ensures ok ==> View() == Parse(buffer[..]).value
    {
      hide ParseRefsPart, U32, U64;
      round, peerId, payload, references := 0, 0, [], [];
      if buffer.Length < 20 { return false; }
      ghost var b := buffer[..];
      var data := 4;
      assert b[4..8] == buffer[data..data + 4];
      round := FromU32(U32(buffer[data..data + 4]));
      data := data + 4;
      assert b[8..16] == buffer[data..data + 8];
      peerId := U64(buffer[data..data + 8]);
      data := data + 8;
      assert b[16..20] == buffer[data..data + 4];
      var payloadLength := U32(buffer[data..data + 4]);
      data := data + 4;
      if buffer.Length < data + payloadLength { return false; }
      assert b[20..20 + payloadLength] == buffer[data..data + payloadLength];
      payload := buffer[data..data + payloadLength];
      data := data + |payload|;
      assert b[data..] == buffer[data..];
      ok, references := DeserializeRefs(buffer, data);
    }

    static method DeserializeRefs(buffer: array<Byte>, start: nat) returns (ok: bool, refs: seq<Key>)
      requires start <= buffer.Length
      ensures ok <==> ParseRefsPart(buffer[start..]).Some?
      ensures ok ==> refs == ParseRefsPart(buffer[start..]).value
    {
      hide ParseRefs, U32;
      ok, refs := true, [];
      if buffer.Length < start + 4 { return false, []; }
      ghost var part := buffer[start..];
      assert part[..4] == buffer[start..start + 4];
      var vectorSize := U32(buffer[start..start + 4]);
      if vectorSize > 0 {
        if buffer.Length < start + 8 { return false, []; }
        assert part[4..8] == buffer[start + 4..start + 8];
        var refLength := U32(buffer[start + 4..start + 8]);
        assert part[8..] == buffer[start + 8..];
        ok, refs := DeserializeEach(buffer, start + 8, vectorSize, refLength);
      }
    }

    static method DeserializeEach(buffer: array<Byte>, start: nat, count: nat, width: nat) returns (ok: bool, refs: seq<Key>)
      requires start <= buffer.Length
      ensures ok <==> ParseRefs(buffer[start..], count, width).Some?
      ensures ok ==> refs == ParseRefs(buffer[start..], count, width).value
    {
      hide ParseRefs;
      ok, refs := true, [];
      var i, data := 0, start;
      ghost var rest, all := buffer[start..], ParseRefs(buffer[start..], count, width);
      PrependOne([], [], all);
      while i < count
        invariant 0 <= i <= count && start <= data <= buffer.Length && rest == buffer[data..]
        invariant all == Prepend(refs, ParseRefs(rest, count - i, width))
      {
        ParseRefsStep(rest, count - i, width);
        if buffer.Length < data + width { return false, refs; }
        assert rest[..width] == buffer[data..data + width];
        PrependOne(refs, rest[..width], ParseRefs(rest[width..], count - i - 1, width));
        refs := refs + [buffer[data..data + width]];
        rest := rest[width..];
        data := data + width;
        i := i + 1;
      }
      ParseNoRefs(rest, width);
    }
  }
}
