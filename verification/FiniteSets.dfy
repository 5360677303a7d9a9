/** Counting arguments over finite sets and duplicate-free sequences. */
module FiniteSets {

  /** The set of elements of a sequence. */
  function Elements<T>(s: seq<T>): set<T> {
    set x | x in s
  }

  predicate Distinct<T(==)>(s: seq<T>) {
    forall i, j :: 0 <= i < j < |s| ==> s[i] != s[j]
  }

  lemma {:induction false} SubsetSize<T>(a: set<T>, b: set<T>)
    requires a <= b
    ensures |a| <= |b|
    ensures |a| == |b| ==> a == b
  {
    assert b == a + (b - a);
    assert |b| == |a| + |b - a|;
  }

  /** Two subsets of a universe of size u share at least |a| + |b| - u members. */
  lemma Overlap<T>(a: set<T>, b: set<T>, u: set<T>)
    requires a <= u && b <= u
    ensures |a * b| >= |a| + |b| - |u|
  {
    SubsetSize(a + b, u);
    assert |a + b| == |a| + |b| - |a * b|;
  }

  function Image<T, U>(s: set<T>, f: T -> U): set<U> {
    set x | x in s :: f(x)
  }

  /** Injective images keep their size. */
  lemma {:induction false} ImageSize<T, U>(s: set<T>, f: T -> U)
    requires forall a, b :: a in s && b in s && f(a) == f(b) ==> a == b
    ensures |Image(s, f)| == |s|
  {
    if s != {} {
      var x :| x in s;
      var rest := s - {x};
      ImageSize(rest, f);
      assert Image(s, f) == Image(rest, f) + {f(x)};
    }
  }

  /** An injection into a set bounds the size of its domain, and is onto when the sizes agree. */
  lemma Injection<T, U>(s: set<T>, t: set<U>, f: T -> U)
    requires forall a, b :: a in s && b in s && f(a) == f(b) ==> a == b
    requires forall a :: a in s ==> f(a) in t
    ensures |s| <= |t|
    ensures |s| >= |t| ==> forall y :: y in t ==> exists x :: x in s && f(x) == y
  {
    ImageSize(s, f);
    SubsetSize(Image(s, f), t);
  }

  lemma {:induction false} DistinctSize<T>(s: seq<T>)
    requires Distinct(s)
    ensures |Elements(s)| == |s|
  {
    if s != [] {
      var front := s[..|s| - 1];
      DistinctSize(front);
      assert s == front + [s[|s| - 1]];
      assert Elements(s) == Elements(front) + {s[|s| - 1]};
    }
  }

  /** A sequence that lists a set once has the set's size. */
  lemma EnumerationSize<T>(s: seq<T>, t: set<T>)
    requires Distinct(s) && Elements(s) == t
    ensures |s| == |t|
  {
    DistinctSize(s);
  }
}
