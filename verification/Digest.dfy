/** The canonical digest of a DAG (peer.cpp:518-565). */
module Digest {
  import opened ByteStrings
  import opened FiniteSets
  import opened Vertices
  import opened Protocol
  import opened Invariants
  import opened System
  import opened Theorems

  // ---- Sorting a set of keys ----

  ghost predicate StrictlySorted(s: seq<Key>) {
    forall i, j :: 0 <= i < j < |s| ==> Less(s[i], s[j])
  }

  /** s lists the set in ascending order. */
  ghost predicate Lists(s: seq<Key>, keys: set<Key>) {
    StrictlySorted(s) && Elements(s) == keys
  }

  /** A set has only one ascending listing. */
  lemma {:induction false} ListingUnique(a: seq<Key>, b: seq<Key>)
    requires StrictlySorted(a) && StrictlySorted(b) && Elements(a) == Elements(b)
    ensures a == b
  {
    assert b != [] ==> b[0] in Elements(b);
    if a != [] {
      assert a[0] in Elements(a);
      var j :| 0 <= j < |b| && b[j] == a[0];
      var i :| 0 <= i < |a| && a[i] == b[0];
      if i > 0 && j > 0 {
        LessTransitive(a[0], b[0], a[0]);
        LessIrreflexive(a[0]);
        assert false;
      }
      assert a[0] == b[0];
      TailElements(a);
      TailElements(b);
      ListingUnique(a[1..], b[1..]);
      assert a == [a[0]] + a[1..] && b == [b[0]] + b[1..];
    }
  }

  lemma TailElements(s: seq<Key>)
    requires s != [] && StrictlySorted(s)
    ensures Elements(s[1..]) == Elements(s) - {s[0]} && StrictlySorted(s[1..])
  {
    forall i | 0 < i < |s| ensures s[i] != s[0] { LessIrreflexive(s[0]); }
    forall x | x in Elements(s) && x != s[0] ensures x in s[1..] {
      var i :| 0 <= i < |s| && s[i] == x;
      assert s[1..][i - 1] == x;
    }
  }

  /** The ascending listing of a set. */
  ghost function Ascending(keys: set<Key>): (s: seq<Key>)
    ensures Lists(s, keys)
  {
    if keys == {} then [] else
      ListingExists(keys);
      var s :| Lists(s, keys);
      s
  }

  lemma {:induction false} ListingExists(keys: set<Key>)
    ensures exists s :: Lists(s, keys)
  {
    if keys == {} {
      assert Lists([], keys);
    } else {
      var k :| k in keys;
      ListingExists(keys - {k});
      var s :| Lists(s, keys - {k});
      InsertLists(k, s, keys - {k});
      assert Lists(Insert(k, s), keys);
    }
  }

  function Insert(k: Key, s: seq<Key>): seq<Key> {
    if s == [] || Less(k, s[0]) then [k] + s else [s[0]] + Insert(k, s[1..])
  }

  lemma {:induction false} InsertLists(k: Key, s: seq<Key>, keys: set<Key>)
    requires Lists(s, keys) && k !in keys
    ensures Lists(Insert(k, s), keys + {k})
    decreases |s|
  {
    var r := Insert(k, s);
    if s == [] || Less(k, s[0]) {
      forall j | 0 < j < |r| ensures Less(r[0], r[j]) {
        if j > 1 { LessTransitive(k, s[0], s[j - 1]); }
      }
      assert Elements(r) == {k} + Elements(s);
    } else {
      assert s[0] in Elements(s);
      LessTotal(k, s[0]);
      TailElements(s);
      InsertLists(k, s[1..], keys - {s[0]});
      var t := Insert(k, s[1..]);
      forall x | x in Elements(t) ensures Less(s[0], x) {
        if x != k {
          var i :| 0 <= i < |s[1..]| && s[1..][i] == x;
        }
      }
      assert forall j :: 0 <= j < |t| ==> t[j] in Elements(t);
      assert Elements(r) == {s[0]} + Elements(t);
    }
  }

  /** Copying a set into a vector, in some iteration order, and sorting it. */
  method SortedCopy(keys: set<Key>) returns (vector: seq<Key>)
    ensures vector == Ascending(keys)
  {
    vector := [];
    var left := keys;
    while left != {}
      invariant left <= keys && Lists(vector, keys - left)
      decreases left
    {
      var k :| k in left;
      InsertLists(k, vector, keys - left);
      assert keys - (left - {k}) == keys - left + {k};
      vector := Insert(k, vector);
      left := left - {k};
    }
    assert keys - left == keys;
    ListingUnique(vector, Ascending(keys));
  }

  // ---- Digests ----

  ghost function RowText(keys: set<Key>): Bytes {
    Concat(Ascending(keys))
  }

  /** hash_set: the digest of one row. */
  ghost function RowDigest(c: Config, keys: set<Key>): Bytes {
    c.hash(RowText(keys))
  }

  ghost function RowDigests(c: Config, dag: seq<set<Key>>): seq<Bytes> {
    seq(|dag|, i requires 0 <= i < |dag| => RowDigest(c, dag[i]))
  }

  /** The rows hash_dag digests: all but the last three waves. */
  function Prefix(dag: seq<set<Key>>): seq<set<Key>>
    requires |dag| >= 3 * WAVE
  {
    dag[..|dag| - 3 * WAVE]
  }

  ghost function DagText(c: Config, dag: seq<set<Key>>): Bytes
    requires |dag| >= 3 * WAVE
  {
    Concat(RowDigests(c, Prefix(dag)))
  }

  /** hash_dag. */
  ghost function DagDigest(c: Config, dag: seq<set<Key>>): Bytes
    requires |dag| >= 3 * WAVE
  {
    c.hash(DagText(c, dag))
  }

  ghost predicate FixedWidth(c: Config) {
    forall text :: |c.hash(text)| == HEX_HASH
  }

  ghost predicate KeysFixedWidth(dag: seq<set<Key>>) {
    forall i, k :: 0 <= i < |dag| && k in dag[i] ==> |k| == HEX_HASH
  }

  /** Two different texts with the same digest. */
  ghost predicate Collision(c: Config, a: Bytes, b: Bytes) {
    a != b && c.hash(a) == c.hash(b)
  }

  lemma RowTextInjective(a: set<Key>, b: set<Key>)
    requires forall k :: k in a ==> |k| == HEX_HASH
    requires forall k :: k in b ==> |k| == HEX_HASH
    requires RowText(a) == RowText(b)
    ensures a == b
  {
    var s, t := Ascending(a), Ascending(b);
    forall x | x in s ensures |x| == HEX_HASH { assert x in Elements(s); }
    forall x | x in t ensures |x| == HEX_HASH { assert x in Elements(t); }
    ConcatInjective(s, t, HEX_HASH);
  }

  /** The rows of the prefix: everything but the last twelve. */
  lemma PrefixRows(dag: seq<set<Key>>)
    requires |dag| >= 12
    ensures Prefix(dag) == dag[..|dag| - 12] && |Prefix(dag)| == |dag| - 12
    ensures forall i :: 0 <= i < |dag| - 12 ==> Prefix(dag)[i] == dag[i]
  {
  }

  /** Equal digests mean equal rows but for the last twelve, or one of the texts actually hashed collides: the two DAG
      texts, or the texts of some such row. */
  lemma EqualDigestsMeanEqualPrefixes(c: Config, dag: seq<set<Key>>, other: seq<set<Key>>)
    requires FixedWidth(c) && |dag| >= 12 && |other| >= 12
    requires KeysFixedWidth(dag) && KeysFixedWidth(other)
    requires DagDigest(c, dag) == DagDigest(c, other)
    ensures || dag[..|dag| - 12] == other[..|other| - 12]
            || Collision(c, DagText(c, dag), DagText(c, other))
            || exists i :: 0 <= i < |dag| - 12 && i < |other| - 12 && Collision(c, RowText(dag[i]), RowText(other[i]))
  {
    var p, q := Prefix(dag), Prefix(other);
    PrefixRows(dag);
    PrefixRows(other);
    if DagText(c, dag) == DagText(c, other) {
      var a, b := RowDigests(c, p), RowDigests(c, q);
      ConcatInjective(a, b, HEX_HASH);
      if forall i :: 0 <= i < |p| ==> RowText(p[i]) == RowText(q[i]) {
        forall i | 0 <= i < |p| ensures p[i] == q[i] { RowTextInjective(p[i], q[i]); }
        assert p == q;
      } else {
        var i :| 0 <= i < |p| && RowText(p[i]) != RowText(q[i]);
        assert a[i] == b[i];
        assert Collision(c, RowText(dag[i]), RowText(other[i]));
      }
    }
  }

  /** And DAGs that agree but for their last twelve rows have equal digests. */
  lemma EqualPrefixesMeanEqualDigests(c: Config, dag: seq<set<Key>>, other: seq<set<Key>>)
    requires |dag| >= 12 && |other| >= 12 && dag[..|dag| - 12] == other[..|other| - 12]
    ensures DagDigest(c, dag) == DagDigest(c, other)
  {
    PrefixRows(dag);
    PrefixRows(other);
  }

  /** `digest` is the hash of an ascending listing of the row put together. */
  ghost predicate IsRowDigest(c: Config, keys: set<Key>, digest: Bytes) {
    exists listing :: StrictlySorted(listing) && Elements(listing) == keys && digest == c.hash(Concat(listing))
  }

  /** `digests` are those of all rows but the last twelve, in order. */
  ghost predicate AreRowDigests(c: Config, dag: seq<set<Key>>, digests: seq<Bytes>) {
    |digests| + 12 == |dag| && forall i :: 0 <= i < |digests| ==> IsRowDigest(c, dag[i], digests[i])
  }

  /** Spelled out: the digest of a DAG is the hash of its row digests put together, and nothing else is. */
  lemma DigestIs(c: Config, dag: seq<set<Key>>, output: Bytes)
    requires |dag| >= 12
    ensures output == DagDigest(c, dag) <==> exists digests :: AreRowDigests(c, dag, digests) && output == c.hash(Concat(digests))
  {
    var own := RowDigests(c, Prefix(dag));
    PrefixRows(dag);
    forall i | 0 <= i < |own| ensures IsRowDigest(c, dag[i], own[i]) {
      var listing := Ascending(dag[i]);
      assert StrictlySorted(listing) && Elements(listing) == dag[i] && own[i] == c.hash(Concat(listing));
    }
    assert AreRowDigests(c, dag, own);
    if digests :| AreRowDigests(c, dag, digests) && output == c.hash(Concat(digests)) {
      forall i | 0 <= i < |own| ensures digests[i] == own[i] {
        var listing :| StrictlySorted(listing) && Elements(listing) == dag[i] && digests[i] == c.hash(Concat(listing));
        ListingUnique(listing, Ascending(dag[i]));
      }
      assert digests == own;
    }
  }

  lemma DagKeysFixedWidth(c: Config, s: State, p: nat)
    requires FixedWidth(c) && Inv(c, s) && p in s.peers
    ensures KeysFixedWidth(s.peers[p].dag)
  {
    hide Inv, LedgerOk, Places, OwnRows, Waiting;
    PeerView(c, s, p);
    InvLedger(c, s);
    var me := s.peers[p];
    forall i, k | 0 <= i < |me.dag| && k in me.dag[i] ensures |k| == HEX_HASH {
      assert RowEntryOk(me.vmap, me.dag, i, k);
      KeyWidth(c, s.created, k);
    }
  }

  lemma KeyWidth(c: Config, created: Ledger, k: Key)
    requires FixedWidth(c) && LedgerOk(c, created) && k in created
    ensures |k| == HEX_HASH
  {
    assert EntryOk(c, created, k);
  }

  /** Two peers of a run whose digests are equal have the same rows but for their last twelve, unless the hash collides on
      texts they hashed. */
  lemma PeersWithEqualDigests(c: Config, s: State, p: nat, q: nat)
    requires Deployment(c) && FixedWidth(c) && Reachable(c, s) && p in s.peers && q in s.peers
    requires |s.peers[p].dag| >= 12 && |s.peers[q].dag| >= 12
    requires DagDigest(c, s.peers[p].dag) == DagDigest(c, s.peers[q].dag)
    ensures var mine, theirs := s.peers[p].dag, s.peers[q].dag;
            || mine[..|mine| - 12] == theirs[..|theirs| - 12]
            || Collision(c, DagText(c, mine), DagText(c, theirs))
            || exists i :: 0 <= i < |mine| - 12 && i < |theirs| - 12 && Collision(c, RowText(mine[i]), RowText(theirs[i]))
  {
    hide Deployment, Reachable, Inv, FixedWidth, KeysFixedWidth, DagText, RowText, DagDigest;
    ReachableInv(c, s);
    DagKeysFixedWidth(c, s, p);
    DagKeysFixedWidth(c, s, q);
    EqualDigestsMeanEqualPrefixes(c, s.peers[p].dag, s.peers[q].dag);
  }

  /** hash_set on row `index`. */
  method HashSet(c: Config, dag: seq<set<Key>>, index: nat) returns (output: Bytes)
    requires index < |dag|
    ensures output == RowDigest(c, dag[index])
  {
    var vector := SortedCopy(dag[index]);
    var str: Bytes := [];
    var i := 0;
    while i < |vector|
      invariant 0 <= i <= |vector| && str == Concat(vector[..i])
    {
      assert vector[..i + 1] == vector[..i] + [vector[i]];
      ConcatSnoc(vector[..i], vector[i]);
      str := str + vector[i];
      i := i + 1;
    }
    assert vector[..i] == vector;
    output := c.hash(str);
  }

  /** hash_dag; the unsigned subtraction needs at least three waves of rows. */
  method HashDag(c: Config, dag: seq<set<Key>>) returns (output: Bytes)
    requires |dag| >= 3 * WAVE
    ensures output == DagDigest(c, dag)
  {
    var str: Bytes := [];
    ghost var digests := RowDigests(c, Prefix(dag));
    var i := 0;
    while i < |dag| - 3 * WAVE
      invariant 0 <= i <= |dag| - 3 * WAVE && str == Concat(digests[..i])
    {
      output := HashSet(c, dag, i);
      assert digests[..i + 1] == digests[..i] + [output];
      ConcatSnoc(digests[..i], output);
      str := str + output;
      i := i + 1;
    }
    assert digests[..i] == digests;
    output := c.hash(str);
  }
}
