/** Byte strings: fixed-width big-endian numbers, decimal text, concatenation and dictionary order. */
module ByteStrings {

  type Byte = b: int | 0 <= b < 256
  type Bytes = seq<Byte>

  const TWO_32: int := 0x1_0000_0000
  const TWO_64: int := 0x1_0000_0000_0000_0000

  function Zeros(n: nat): (r: Bytes)
    ensures |r| == n
    ensures forall i :: 0 <= i < n ==> r[i] == 0
  {
    seq(n, _ => 0)
  }

  // ---- Big-endian words (htonl, htobe64 and their inverses) ----

  function BE32(x: int): (r: Bytes)
    requires 0 <= x < TWO_32
    ensures |r| == 4
  {
    [x / 0x100_0000, x / 0x1_0000 % 256, x / 256 % 256, x % 256]
  }

  function U32(b: Bytes): (r: int)
    requires |b| == 4
    ensures 0 <= r < TWO_32
  {
    b[0] as int * 0x100_0000 + b[1] as int * 0x1_0000 + b[2] as int * 256 + b[3] as int
  }

  lemma U32BE32(x: int)
    requires 0 <= x < TWO_32
    ensures U32(BE32(x)) == x
  {
    assert x == x / 256 * 256 + x % 256;
    var a := x / 256;
    assert a == a / 256 * 256 + a % 256;
    assert a / 256 == x / 0x1_0000;
    var b := a / 256;
    assert b == b / 256 * 256 + b % 256;
    assert b / 256 == x / 0x100_0000;
  }

  function BE64(x: int): (r: Bytes)
    requires 0 <= x < TWO_64
    ensures |r| == 8
  {
    BE32(x / TWO_32) + BE32(x % TWO_32)
  }

  function U64(b: Bytes): (r: int)
    requires |b| == 8
    ensures 0 <= r < TWO_64
  {
    U32(b[..4]) * TWO_32 + U32(b[4..])
  }

  lemma U64BE64(x: int)
    requires 0 <= x < TWO_64
    ensures U64(BE64(x)) == x
  {
    var hi, lo := BE32(x / TWO_32), BE32(x % TWO_32);
    assert (hi + lo)[..4] == hi && (hi + lo)[4..] == lo;
    U32BE32(x / TWO_32);
    U32BE32(x % TWO_32);
  }

  /** The bit pattern of a 32-bit int, read back as unsigned by ntohl. */
  function ToU32(x: int): (r: int)
    requires -0x8000_0000 <= x < 0x8000_0000
    ensures 0 <= r < TWO_32
  {
    if x < 0 then x + TWO_32 else x
  }

  function FromU32(x: int): (r: int)
    requires 0 <= x < TWO_32
    ensures -0x8000_0000 <= r < 0x8000_0000
  {
    if x >= 0x8000_0000 then x - TWO_32 else x
  }

  // ---- Decimal text (std::to_string of a non-negative number) ----

  const DIGIT_ZERO: Byte := 48

  predicate IsDigit(b: Byte) {
    48 <= b <= 57
  }

  function Decimal(n: nat): (r: Bytes)
    ensures |r| > 0
    ensures forall b :: b in r ==> IsDigit(b)
  {
    if n < 10 then [48 + n] else Decimal(n / 10) + [48 + n % 10]
  }

  /** The number a digit string stands for. */
  function Value(b: Bytes): nat
    requires forall x :: x in b ==> IsDigit(x)
  {
    if b == [] then 0 else
      assert IsDigit(b[|b| - 1]);
      10 * Value(b[..|b| - 1]) + (b[|b| - 1] as int - 48)
  }

  lemma {:induction false} ValueDecimal(n: nat)
    ensures Value(Decimal(n)) == n
  {
    if n >= 10 {
      ValueDecimal(n / 10);
      var d := Decimal(n);
      assert d[..|d| - 1] == Decimal(n / 10);
    } else {
      assert Decimal(n)[..0] == [];
    }
  }

  // ---- Concatenation ----

  function Concat(parts: seq<Bytes>): Bytes {
    if parts == [] then [] else parts[0] + Concat(parts[1..])
  }

  lemma {:induction false} ConcatAppend(a: seq<Bytes>, b: seq<Bytes>)
    ensures Concat(a + b) == Concat(a) + Concat(b)
  {
    if a == [] {
      assert a + b == b;
    } else {
      assert (a + b)[1..] == a[1..] + b;
      ConcatAppend(a[1..], b);
    }
  }

  lemma ConcatSnoc(a: seq<Bytes>, x: Bytes)
    ensures Concat(a + [x]) == Concat(a) + x
  {
    ConcatAppend(a, [x]);
    assert Concat([x]) == x + Concat([]);
  }

  /** Equal-width blocks concatenate injectively. */
  lemma {:induction false} ConcatInjective(a: seq<Bytes>, b: seq<Bytes>, width: nat)
    requires width > 0
    requires forall x :: x in a ==> |x| == width
    requires forall x :: x in b ==> |x| == width
    requires Concat(a) == Concat(b)
    ensures a == b
  {
    if a != [] && b != [] {
      Peel(a[0], Concat(a[1..]));
      Peel(b[0], Concat(b[1..]));
      assert |a[0]| == |b[0]|;
      ConcatInjective(a[1..], b[1..], width);
      assert a == [a[0]] + a[1..];
      assert b == [b[0]] + b[1..];
    }
  }

  /** Cutting a concatenation at the seam. */
  lemma Peel(x: Bytes, y: Bytes)
    ensures (x + y)[..|x|] == x && (x + y)[|x|..] == y
  {
  }

  // ---- Dictionary order on bytes (std::string comparison) ----

  predicate Less(a: Bytes, b: Bytes) {
    b != [] && (a == [] || a[0] < b[0] || (a[0] == b[0] && Less(a[1..], b[1..])))
  }

  lemma {:induction false} LessTransitive(a: Bytes, b: Bytes, c: Bytes)
    requires Less(a, b) && Less(b, c)
    ensures Less(a, c)
  {
    if a != [] && a[0] == b[0] && b[0] == c[0] {
      LessTransitive(a[1..], b[1..], c[1..]);
    }
  }

  lemma {:induction false} LessIrreflexive(a: Bytes)
    ensures !Less(a, a)
  {
    if a != [] { LessIrreflexive(a[1..]); }
  }

  lemma {:induction false} LessTotal(a: Bytes, b: Bytes)
    ensures a == b || Less(a, b) || Less(b, a)
  {
    if a != [] && b != [] && a[0] == b[0] {
      LessTotal(a[1..], b[1..]);
      if a[1..] == b[1..] {
        assert a == [a[0]] + a[1..] && b == [b[0]] + b[1..];
      }
    }
  }
}
