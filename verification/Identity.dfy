/** Vertex identity: the hashed text is the round and the creator's id, written in decimal with nothing
    between them (vertex.cpp, hash). */
module Identity {
  import opened ByteStrings

  const MINUS: Byte := 45

  /** std::to_string of a signed number. */
  function Text(n: int): Bytes {
    if n < 0 then [MINUS] + Decimal(-n) else Decimal(n)
  }

  function Id(round: int, pid: nat): Bytes {
    Text(round) + Decimal(pid)
  }

  predicate IsSuffix(a: Bytes, b: Bytes) {
    |a| <= |b| && b[|b| - |a|..] == a
  }

  /** No peer id, written out, ends another peer id. */
  predicate SuffixFree(ids: set<nat>) {
    forall p, q :: p in ids && q in ids && p != q ==> !IsSuffix(Decimal(p), Decimal(q))
  }

  /** No two distinct (round, peer) pairs are hashed from the same text. */
  ghost predicate IdsUnique(ids: set<nat>) {
    forall r1: nat, p: nat, r2: nat, q: nat :: r1 > 0 && r2 > 0 && p in ids && q in ids && Id(r1, p) == Id(r2, q)
      ==> r1 == r2 && p == q
  }

  lemma DecimalInjective(m: nat, n: nat)
    requires Decimal(m) == Decimal(n)
    ensures m == n
  {
    ValueDecimal(m);
    ValueDecimal(n);
  }

  lemma ValueSnoc(front: Bytes, last: Byte)
    requires IsDigit(last) && forall x :: x in front ==> IsDigit(x)
    ensures forall x :: x in front + [last] ==> IsDigit(x)
    ensures Value(front + [last]) == 10 * Value(front) + (last as int - 48)
  {
    assert (front + [last])[..|front|] == front;
  }

  /** Digit strings without a leading zero are the decimal forms. */
  lemma {:induction false} DecimalOfValue(b: Bytes)
    requires forall x :: x in b ==> IsDigit(x)
    requires b != [] && b[0] != DIGIT_ZERO
    ensures Value(b) > 0 && Decimal(Value(b)) == b
  {
    var front, last := b[..|b| - 1], b[|b| - 1];
    assert IsDigit(last);
    assert b == front + [last];
    hide Value, Decimal;
    ValueSnoc(front, last);
    if front == [] {
      NoValue();
      DecimalDigit(last);
    } else {
      assert front[0] == b[0];
      DecimalOfValue(front);
      DecimalSnoc(Value(front), last);
    }
  }

  lemma NoValue()
    ensures Value([]) == 0
  {
  }

  lemma DecimalDigit(last: Byte)
    requires IsDigit(last)
    ensures Decimal(last as int - 48) == [last]
  {
  }

  lemma DecimalSnoc(n: nat, last: Byte)
    requires n > 0 && IsDigit(last)
    ensures Decimal(10 * n + (last as int - 48)) == Decimal(n) + [last]
  {
    var m := 10 * n + (last as int - 48);
    assert m / 10 == n && m % 10 == last as int - 48;
  }

  lemma SameIdOrdered(r1: nat, p: nat, r2: nat, q: nat)
    requires Id(r1, p) == Id(r2, q) && |Decimal(p)| <= |Decimal(q)|
    ensures IsSuffix(Decimal(p), Decimal(q))
    ensures p == q ==> r1 == r2
  {
    var a, b, whole := Decimal(p), Decimal(q), Id(r1, p);
    assert whole[|whole| - |a|..] == a;
    assert whole[|whole| - |b|..] == b;
    assert b[|b| - |a|..] == whole[|whole| - |a|..];
    if p == q {
      assert whole[..|whole| - |a|] == Decimal(r1) && whole[..|whole| - |b|] == Decimal(r2);
      DecimalInjective(r1, r2);
    }
  }

  /** A suffix among the ids makes two texts coincide: round 1 of the longer id, and a longer round of the shorter. */
  lemma SuffixCollides(p: nat, q: nat) returns (r: nat)
    requires p != q && IsSuffix(Decimal(p), Decimal(q))
    ensures r > 0 && Id(r, p) == Id(1, q)
  {
    r := PrefixedByOne(Decimal(p), Decimal(q));
  }

  lemma PrefixedByOne(a: Bytes, b: Bytes) returns (r: nat)
    requires IsSuffix(a, b) && forall x :: x in b ==> IsDigit(x)
    ensures r > 0 && Decimal(r) + a == Decimal(1) + b
  {
    var one: Bytes := [49];
    var lead := b[..|b| - |a|];
    assert b == lead + a;
    forall x | x in one + lead ensures IsDigit(x) {
      assert x in one || x in b;
    }
    DecimalOfValue(one + lead);
    r := Value(one + lead);
    assert Decimal(1) == one;
    assert one + lead + a == one + b;
  }

  /** The unseparated text identifies (round, peer) exactly when the ids are suffix-free. */
  lemma UniqueExactlyWhenSuffixFree(ids: set<nat>)
    ensures IdsUnique(ids) <==> SuffixFree(ids)
  {
    if IdsUnique(ids) {
      forall p, q | p in ids && q in ids && p != q
        ensures !IsSuffix(Decimal(p), Decimal(q))
      {
        if IsSuffix(Decimal(p), Decimal(q)) {
          var r := SuffixCollides(p, q);
        }
      }
    }
    if SuffixFree(ids) {
      forall r1: nat, p: nat, r2: nat, q: nat | r1 > 0 && r2 > 0 && p in ids && q in ids && Id(r1, p) == Id(r2, q)
        ensures r1 == r2 && p == q
      {
        if |Decimal(p)| <= |Decimal(q)| {
          SameIdOrdered(r1, p, r2, q);
        } else {
          SameIdOrdered(r2, q, r1, p);
        }
      }
    }
  }

  /** Peer ids with one common number of digits, as nanosecond clocks give, are suffix-free. */
  lemma SameDigitsSuffixFree(ids: set<nat>, digits: nat)
    requires forall p :: p in ids ==> |Decimal(p)| == digits
    ensures SuffixFree(ids)
  {
    forall p, q | p in ids && q in ids && p != q
      ensures !IsSuffix(Decimal(p), Decimal(q))
    {
      if Decimal(p) == Decimal(q) { DecimalInjective(p, q); }
    }
  }

  /** Without such a condition the text is ambiguous. */
  lemma AmbiguousIds()
    ensures Id(1, 11) == Id(11, 1)
    ensures !SuffixFree({1, 11})
  {
    assert Decimal(1) == [49] && Decimal(11) == [49, 49];
    assert IsSuffix(Decimal(1), Decimal(11));
  }

  /** The text of round 12 of peer 345 is "12345". */
  lemma ExampleId()
    ensures Id(12, 345) == [49, 50, 51, 52, 53]
  {
    assert Decimal(12) == [49, 50];
    assert Decimal(345 / 10) == [51, 52];
  }
}
